/** The words and symbols of a command line, character by character: a line has the lexemes ts
    exactly if it is their texts with blanks between them wherever they would run together. */
module ShellLexis {
  import opened ShellGrammar
  import opened ShellLanguage

  const WHITESPACE: string := " \t\r\n\U{B}"
  const SYMBOLS: string := "<|>&;()"

  predicate Blank(g: string) { forall k :: 0 <= k < |g| ==> g[k] in WHITESPACE }

  function Spelled(l: Lexeme): (r: string) {
    match l
    case Sym(c) => [c]
    case Double => ">>"
    case Plain(w) => w
  }

  predicate Proper(l: Lexeme) {
    match l
    case Sym(c) => c in SYMBOLS
    case Double => true
    case Plain(w) => w != "" && forall k :: 0 <= k < |w| ==> w[k] !in WHITESPACE && w[k] !in SYMBOLS
  }

  /** Without blanks between them a and b would read as something else. */
  predicate RunTogether(a: Lexeme, b: Lexeme) {
    (a.Plain? && b.Plain?) || (a == Sym('>') && (b == Sym('>') || b.Double?))
  }

  ghost predicate Spaced(gaps: seq<string>, ts: seq<Lexeme>) {
    && |gaps| == |ts| + 1 && (forall k :: 0 <= k < |gaps| ==> Blank(gaps[k]))
    && (forall k :: 0 <= k < |ts| ==> Proper(ts[k]))
    && forall k :: 0 < k < |ts| ==> gaps[k] != "" || !RunTogether(ts[k-1], ts[k])
  }

  function Join(gaps: seq<string>, ts: seq<Lexeme>): (s: string)
    requires |gaps| == |ts| + 1
  {
    if ts == [] then gaps[0] else gaps[0] + Spelled(ts[0]) + Join(gaps[1..], ts[1..])
  }

  lemma Characters(c: char)
    ensures c in WHITESPACE <==> IsSpace(c)
    ensures c in SYMBOLS <==> IsSymbol(c)
  {
    assert WHITESPACE == [' ', '\t', '\r', '\n', 11 as char];
    assert SYMBOLS == ['<', '|', '>', '&', ';', '(', ')'];
  }

  lemma {:induction false} SkipIs(s: string, i: nat, n: nat)
    requires i + n <= |s| && (forall k :: i <= k < i + n ==> IsSpace(s[k])) && (i + n < |s| ==> !IsSpace(s[i + n]))
    ensures Skip(s, i) == i + n
    decreases n
  {
    if n > 0 { SkipIs(s, i + 1, n - 1); }
  }

  lemma {:induction false} WordEndIs(s: string, i: nat, n: nat)
    requires i + n <= |s| && (forall k :: i <= k < i + n ==> IsWord(s[k])) && (i + n < |s| ==> !IsWord(s[i + n]))
    ensures WordEnd(s, i) == i + n
    decreases n
  {
    if n > 0 { WordEndIs(s, i + 1, n - 1); }
  }

  /** What can follow the lexeme a, in a line that is spaced. */
  lemma Following(gaps: seq<string>, ts: seq<Lexeme>)
    requires Spaced(gaps, ts) && ts != []
    ensures var rest := Join(gaps[1..], ts[1..]);
      && (ts[0].Plain? && rest != "" ==> !IsWord(rest[0]))
      && (ts[0] == Sym('>') && rest != "" ==> rest[0] != '>')
  {
    var rest := Join(gaps[1..], ts[1..]);
    if rest != "" {
      Characters(rest[0]);
      if gaps[1] != "" {
        assert rest[0] == gaps[1][0];
      } else if |ts| > 1 {
        assert Proper(ts[1]);
        assert rest[0] == Spelled(ts[1])[0];
      }
    }
  }

  lemma Parts(s: string, i: nat, g: string, w: string, rest: string)
    requires i <= |s| && s[i..] == g + w + rest
    ensures var q, e := i + |g|, i + |g| + |w|;
      e + |rest| == |s| && s[i..q] == g && s[q..e] == w && s[e..] == rest
  {
    var t := s[i..];
    assert t[..|g|] == g && t[|g|..|g| + |w|] == w && t[|g| + |w|..] == rest;
  }

  lemma GapSkipped(s: string, i: nat, q: nat)
    requires i <= q <= |s| && Blank(s[i..q]) && (q < |s| ==> !IsSpace(s[q]))
    ensures Skip(s, i) == q
  {
    hide Skip;
    forall k | i <= k < q ensures IsSpace(s[k]) {
      assert s[k] == s[i..q][k - i];
      Characters(s[k]);
    }
    SkipIs(s, i, q - i);
  }

  lemma WordTaken(s: string, q: nat, e: nat)
    requires q <= e <= |s| && Proper(Plain(s[q..e])) && (e < |s| ==> !IsWord(s[e]))
    ensures WordEnd(s, q) == e
  {
    hide WordEnd;
    forall k | q <= k < e ensures IsWord(s[k]) {
      assert s[k] == s[q..e][k - q];
      Characters(s[k]);
    }
    WordEndIs(s, q, e - q);
  }

  /** gettoken takes lexeme l where it stands after blanks and before what may follow it. */
  lemma TokenIs(s: string, i: nat, q: nat, e: nat, l: Lexeme)
    requires i <= q <= e <= |s| && Blank(s[i..q]) && Proper(l) && s[q..e] == Spelled(l)
    requires e < |s| ==> (l.Plain? ==> !IsWord(s[e])) && (l == Sym('>') ==> s[e] != '>')
    ensures var t := TokenAt(s, i);
      t.q == q && t.eq == e && t.kind == match l case Sym(c) => Symbol(c) case Double => Append case Plain(_) => Word
  {
    assert q < e && s[q] == s[q..e][0] && (l.Double? ==> s[q + 1] == s[q..e][1]);
    Characters(s[q]);
    GapSkipped(s, i, q);
    if l.Plain? { WordTaken(s, q, e); }
    hide Skip, WordEnd, Blank;
  }

  lemma LexOne(s: string, i: nat, q: nat, e: nat, l: Lexeme)
    requires i <= q <= e <= |s| && Blank(s[i..q]) && Proper(l) && s[q..e] == Spelled(l)
    requires e < |s| ==> (l.Plain? ==> !IsWord(s[e])) && (l == Sym('>') ==> s[e] != '>')
    ensures Lexemes(s, i) == [l] + Lexemes(s, e)
  {
    TokenIs(s, i, q, e, l);
    LexBlanks(s, e);
    hide Skip, WordEnd, Blank, Proper, IsWord;
  }

  lemma LexNone(s: string, i: nat)
    requires i <= |s| && Blank(s[i..])
    ensures Lexemes(s, i) == []
  {
    assert s[i..|s|] == s[i..];
    GapSkipped(s, i, |s|);
  }

  /** The rest of a line after its first lexeme. */
  lemma Rest(s: string, i: nat, gaps: seq<string>, ts: seq<Lexeme>) returns (q: nat, e: nat)
    requires i <= |s| && Spaced(gaps, ts) && ts != [] && s[i..] == Join(gaps, ts)
    ensures i <= q <= e <= |s| && Blank(s[i..q]) && Proper(ts[0]) && s[q..e] == Spelled(ts[0])
    ensures e < |s| ==> (ts[0].Plain? ==> !IsWord(s[e])) && (ts[0] == Sym('>') ==> s[e] != '>')
    ensures s[e..] == Join(gaps[1..], ts[1..])
  {
    var rest := Join(gaps[1..], ts[1..]);
    Following(gaps, ts);
    q, e := i + |gaps[0]|, i + |gaps[0]| + |Spelled(ts[0])|;
    Parts(s, i, gaps[0], Spelled(ts[0]), rest);
    assert rest != "" ==> s[e] == s[e..][0];
  }

  lemma {:induction false} ReadsFrom(s: string, i: nat, gaps: seq<string>, ts: seq<Lexeme>)
    requires i <= |s| && Spaced(gaps, ts) && s[i..] == Join(gaps, ts)
    ensures Lexemes(s, i) == ts
    decreases |ts|
  {
    if ts == [] {
      LexNone(s, i);
    } else {
      SpacedTail(gaps, ts);
      hide Lexemes, Blank, Proper, IsWord, Spaced, Join;
      var q, e := Rest(s, i, gaps, ts);
      LexOne(s, i, q, e, ts[0]);
      ReadsFrom(s, e, gaps[1..], ts[1..]);
    }
  }

  lemma SpacedTail(gaps: seq<string>, ts: seq<Lexeme>)
    requires Spaced(gaps, ts) && ts != []
    ensures Spaced(gaps[1..], ts[1..])
  {
  }

  lemma {:induction false} SkipGap(s: string, i: nat)
    requires i <= |s|
    ensures Blank(s[i..Skip(s, i)])
    decreases |s| - i
  {
    if i < |s| && IsSpace(s[i]) {
      SkipGap(s, i + 1);
      Characters(s[i]);
      assert s[i..Skip(s, i)] == [s[i]] + s[i+1..Skip(s, i)];
    }
  }

  lemma ProperWord(s: string, q: nat)
    requires q < |s| && IsWord(s[q])
    ensures q < WordEnd(s, q) && Proper(Plain(s[q..WordEnd(s, q)]))
  {
    var w := s[q..WordEnd(s, q)];
    WordRun(s, q);
    forall k | 0 <= k < |w| ensures w[k] !in WHITESPACE && w[k] !in SYMBOLS { Characters(w[k]); }
  }

  /** Where a lexeme follows at i: blanks, then its text, then something that may follow it. */
  ghost predicate Stands(s: string, i: nat, q: nat, e: nat, l: Lexeme) {
    && i <= q < e <= |s| && Blank(s[i..q]) && Proper(l) && s[q..e] == Spelled(l)
    && (e < |s| ==> (l.Plain? ==> !IsWord(s[e])) && (l == Sym('>') ==> s[e] != '>'))
  }

  lemma TokenStands(s: string, i: nat) returns (q: nat, e: nat, l: Lexeme)
    requires i <= |s| && Skip(s, i) < |s|
    ensures Stands(s, i, q, e, l)
  {
    q := Skip(s, i);
    SkipGap(s, i);
    Characters(s[q]);
    if IsWord(s[q]) {
      ProperWord(s, q);
      e := WordEnd(s, q);
      l := Plain(s[q..e]);
    } else if s[q] == '>' && q + 1 < |s| && s[q+1] == '>' {
      e, l := q + 2, Double;
    } else {
      e, l := q + 1, Sym(s[q]);
    }
  }

  /** Two lexemes that follow each other without blanks do not run together. */
  lemma Neighbours(l: Lexeme, gaps: seq<string>, ts: seq<Lexeme>, rest: string)
    requires Spaced(gaps, ts) && Join(gaps, ts) == rest
    requires rest != "" ==> (l.Plain? ==> !IsWord(rest[0])) && (l == Sym('>') ==> rest[0] != '>')
    ensures ts != [] && gaps[0] == "" ==> !RunTogether(l, ts[0])
  {
    if ts != [] && gaps[0] == "" {
      assert Proper(ts[0]);
      assert rest[0] == Spelled(ts[0])[0];
      Characters(rest[0]);
    }
  }

  lemma SpacedMore(g: string, l: Lexeme, gaps: seq<string>, ts: seq<Lexeme>)
    requires Spaced(gaps, ts) && Blank(g) && Proper(l) && (ts != [] && gaps[0] == "" ==> !RunTogether(l, ts[0]))
    ensures Spaced([g] + gaps, [l] + ts) && Join([g] + gaps, [l] + ts) == g + Spelled(l) + Join(gaps, ts)
  {
    hide Blank, Proper, RunTogether;
    var gaps', ts' := [g] + gaps, [l] + ts;
    assert gaps'[1..] == gaps && ts'[1..] == ts;
    assert forall k :: 0 < k < |ts'| ==> ts'[k] == ts[k-1] && gaps'[k] == gaps[k-1];
  }

  lemma StandsMore(s: string, i: nat, q: nat, e: nat, l: Lexeme, gaps: seq<string>, ts: seq<Lexeme>)
    requires Stands(s, i, q, e, l) && Spaced(gaps, ts) && Join(gaps, ts) == s[e..]
    ensures Spaced([s[i..q]] + gaps, [l] + ts) && Join([s[i..q]] + gaps, [l] + ts) == s[i..]
  {
    hide Spaced, Join, Blank, Proper, RunTogether, IsWord;
    assert s[e..] != "" ==> s[e..][0] == s[e];
    Neighbours(l, gaps, ts, s[e..]);
    SpacedMore(s[i..q], l, gaps, ts);
    assert s[i..] == s[i..q] + s[q..e] + s[e..];
  }

  lemma {:induction false} SpellsFrom(s: string, i: nat) returns (gaps: seq<string>)
    requires i <= |s|
    ensures Spaced(gaps, Lexemes(s, i)) && Join(gaps, Lexemes(s, i)) == s[i..]
    decreases |s| - i
  {
    if Skip(s, i) == |s| {
      SkipGap(s, i);
      assert s[i..|s|] == s[i..];
      LexNone(s, i);
      gaps := [s[i..]];
    } else {
      var q, e, l := TokenStands(s, i);
      LexOne(s, i, q, e, l);
      gaps := SpellsFrom(s, e);
      StandsMore(s, i, q, e, l, gaps, Lexemes(s, e));
      gaps := [s[i..q]] + gaps;
      hide Lexemes, Spaced, Join, Stands;
    }
  }

  ghost predicate Spells(s: string, gaps: seq<string>, ts: seq<Lexeme>) { Spaced(gaps, ts) && Join(gaps, ts) == s }

  /** A line has the lexemes ts if and only if it spells them, with any blanks around them and
      some wherever two would run together. */
  lemma LexemesIff(s: string, ts: seq<Lexeme>)
    ensures Lexemes(s, 0) == ts <==> exists gaps :: Spells(s, gaps, ts)
  {
    hide Lexemes, Spaced, Join;
    assert s[0..] == s;
    if Lexemes(s, 0) == ts {
      var gaps := SpellsFrom(s, 0);
      assert Spells(s, gaps, ts);
    }
    if gaps :| Spells(s, gaps, ts) { ReadsFrom(s, 0, gaps, ts); }
  }

  // ----- lines of words -----

  predicate AllWords(ts: seq<Lexeme>) { forall k :: 0 <= k < |ts| ==> ts[k].Plain? }

  function Words(ts: seq<Lexeme>): (ws: seq<string>)
    requires AllWords(ts)
    ensures |ws| == |ts|
  {
    seq(|ts|, k requires 0 <= k < |ts| => ts[k].w)
  }

  lemma {:induction false} WordsSimple(ts: seq<Lexeme>, argv: seq<string>, rs: seq<Redirection<string>>)
    requires AllWords(ts)
    ensures Simple(ts, argv, rs) <==> argv == Words(ts) && rs == []
    decreases |ts|
  {
    if ts != [] && argv != [] {
      WordsSimple(ts[1..], argv[1..], rs);
      assert Words(ts) == [ts[0].w] + Words(ts[1..]);
      assert argv == [argv[0]] + argv[1..];
    }
  }

  lemma WordsExec(ts: seq<Lexeme>, c: Cmd<string>)
    requires AllWords(ts)
    ensures IsExec(ts, c) <==> c == Exec(Words(ts)) && |ts| < MAXARGS
  {
    hide Simple, IsLine;
    WordsSimple(ts, Words(ts), []);
    if c == Exec(Words(ts)) && |ts| < MAXARGS { assert SimpleOf(ts, c, Words(ts), []); }
    if argv, rs :| SimpleOf(ts, c, argv, rs) { WordsSimple(ts, argv, rs); }
  }

  lemma WordsLine(ts: seq<Lexeme>, c: Cmd<string>)
    requires AllWords(ts)
    ensures IsLine(ts, c) <==> c == Exec(Words(ts)) && |ts| < MAXARGS
  {
    hide IsExec;
    WordsExec(ts, c);
    assert IsPipe(ts, c) <==> IsExec(ts, c) by {
      forall k: nat ensures !PipeOf(ts, c, k) { if k < |ts| { assert ts[k].Plain?; } }
    }
    assert IsBack(ts, c) <==> IsPipe(ts, c) by { if ts != [] { assert ts[|ts|-1].Plain?; } }
    assert IsLine(ts, c) <==> IsBack(ts, c) by {
      forall k: nat ensures !ListOf(ts, c, k) { if k < |ts| { assert ts[k].Plain?; } }
    }
  }

  /** A line of words only is accepted exactly if there are fewer than ten, and is then one
      command with them as its arguments. */
  lemma WordsAccepted(s: string)
    requires AllWords(Lexemes(s, 0))
    ensures CmdOf(s).Ok? <==> |Lexemes(s, 0)| < 10
    ensures CmdOf(s).Ok? ==> Named(s, CmdOf(s).value) == Exec(Words(Lexemes(s, 0)))
  {
    hide Lexemes, IsLine, LineAt, CmdOf, Named;
    var ts := Lexemes(s, 0);
    Language(s, Exec(Words(ts)));
    WordsLine(ts, Exec(Words(ts)));
    if CmdOf(s).Ok? {
      Language(s, Named(s, CmdOf(s).value));
      WordsLine(ts, Named(s, CmdOf(s).value));
    }
  }
}
