/** The regular-expression matcher of grep (grep.c:73-106). A C string is the sequence of
    its characters before the terminating NUL. */
module Matcher {

  datatype Item = One(c: char) | Star(c: char)

  /** Items in order; atEnd stands for a final '$'. */
  datatype Pattern = Pattern(items: seq<Item>, atEnd: bool)

  // ----- how a pattern reads -----

  /** '*' applies to the character before it, whatever that is; '$' means the end only as
      the very last character; every other character, '^' included, stands for itself. */
  function Parse(re: string): (p: Pattern)
  {
    if re == [] then Pattern([], false)
    else if |re| > 1 && re[1] == '*' then
      var p := Parse(re[2..]); Pattern([Star(re[0])] + p.items, p.atEnd)
    else if re == "$" then Pattern([], true)
    else
      var p := Parse(re[1..]); Pattern([One(re[0])] + p.items, p.atEnd)
  }

  function Show(p: Pattern): (re: string)
    decreases |p.items|
  {
    if p.items == [] then (if p.atEnd then "$" else "")
    else
      var rest := Show(p.(items := p.items[1..]));
      match p.items[0]
      case One(c) => [c] + rest
      case Star(c) => [c, '*'] + rest
  }

  /** Patterns that have one reading: no plain character runs into a '*', none is a final
      '$'. */
  predicate Canonical(p: Pattern)
    decreases |p.items|
  {
    p.items != [] ==>
      && Canonical(p.(items := p.items[1..]))
      && (p.items[0].One? ==>
            && (|p.items| > 1 ==> p.items[1].c != '*')
            && (|p.items| == 1 && !p.atEnd ==> p.items[0].c != '$'))
  }

  /** Parsing loses nothing and always yields a canonical pattern. */
  lemma {:induction false} ShowParse(re: string)
    ensures Show(Parse(re)) == re && Canonical(Parse(re))
    decreases |re|
  {
    var p := Parse(re);
    if re == [] || re == "$" {
    } else if |re| > 1 && re[1] == '*' {
      ShowParse(re[2..]);
      assert p.items[1..] == Parse(re[2..]).items;
      assert re == [re[0], '*'] + re[2..];
    } else {
      ShowParse(re[1..]);
      assert p.items[1..] == Parse(re[1..]).items;
      assert re == [re[0]] + re[1..];
      FirstChar(re[1..]);
    }
  }

  lemma FirstChar(re: string)
    ensures var p := Parse(re);
      && (p.items != [] ==> re != [] && p.items[0].c == re[0])
      && (p.items == [] && !p.atEnd ==> re == [])
  {
  }

  lemma ShowFirst(p: Pattern)
    ensures p.items != [] ==> Show(p) != [] && Show(p)[0] == p.items[0].c
    ensures p.items == [] ==> Show(p) == if p.atEnd then "$" else ""
  {
  }

  /** Every canonical pattern is the reading of its own text: with ShowParse, Parse and
      Show are inverse. */
  lemma {:induction false} ParseShow(p: Pattern)
    requires Canonical(p)
    ensures Parse(Show(p)) == p
    decreases |p.items|
  {
    if p.items != [] {
      var tail := p.(items := p.items[1..]);
      ParseShow(tail);
      ShowFirst(tail);
      var re := Show(p);
      assert p.items == [p.items[0]] + tail.items;
      match p.items[0]
      case One(c) =>
        assert re[1..] == Show(tail);
      case Star(c) =>
        assert re[2..] == Show(tail);
    }
  }

  // ----- what a pattern means -----

  predicate Fits(c: char, x: char) { c == '.' || c == x }

  /** The words of one item. */
  ghost predicate ItemWord(it: Item, w: string) {
    match it
    case One(c) => |w| == 1 && Fits(c, w[0])
    case Star(c) => forall i :: 0 <= i < |w| ==> Fits(c, w[i])
  }

  function Flatten(pieces: seq<string>): (w: string) {
    if pieces == [] then [] else pieces[0] + Flatten(pieces[1..])
  }

  /** pieces gives one word per item. */
  ghost predicate Spells(items: seq<Item>, pieces: seq<string>) {
    |pieces| == |items| && forall i :: 0 <= i < |items| ==> ItemWord(items[i], pieces[i])
  }

  ghost predicate Word(items: seq<Item>, w: string) {
    exists pieces :: Spells(items, pieces) && Flatten(pieces) == w
  }

  /** text has a prefix of length n in the language of p, all of text if p ends in '$'. */
  ghost predicate PrefixAt(p: Pattern, text: string, n: nat) {
    n <= |text| && Word(p.items, text[..n]) && (p.atEnd ==> n == |text|)
  }

  ghost predicate Prefix(p: Pattern, text: string) { exists n: nat :: PrefixAt(p, text, n) }

  ghost predicate PrefixFrom(p: Pattern, text: string, a: nat) { a <= |text| && Prefix(p, text[a..]) }

  /** Some substring of text is in the language; with '^' it starts at the beginning. */
  ghost predicate Matches(re: string, text: string) {
    if re != [] && re[0] == '^' then Prefix(Parse(re[1..]), text)
    else exists a: nat :: PrefixFrom(Parse(re), text, a)
  }

  lemma EmptyWord(items: seq<Item>, w: string)
    requires items == []
    ensures Word(items, w) <==> w == []
  {
    if w == [] {
      var none: seq<string> := [];
      assert Spells(items, none) && Flatten(none) == w;
    }
  }

  lemma WordCons(it: Item, items: seq<Item>, u: string, v: string)
    requires ItemWord(it, u) && Word(items, v)
    ensures Word([it] + items, u + v)
  {
    var pieces :| Spells(items, pieces) && Flatten(pieces) == v;
    var more := [u] + pieces;
    assert more[1..] == pieces;
    assert Spells([it] + items, more) && Flatten(more) == u + v;
  }

  lemma WordSplit(it: Item, items: seq<Item>, w: string) returns (k: nat)
    requires Word([it] + items, w)
    ensures k <= |w| && ItemWord(it, w[..k]) && Word(items, w[k..])
  {
    var all := [it] + items;
    var pieces :| Spells(all, pieces) && Flatten(pieces) == w;
    k := |pieces[0]|;
    assert ItemWord(all[0], pieces[0]);
    var rest := pieces[1..];
    assert w[..k] == pieces[0] && w[k..] == Flatten(rest);
    forall i | 0 <= i < |items| ensures ItemWord(items[i], rest[i]) { assert ItemWord(all[i+1], pieces[i+1]); }
    assert Spells(items, rest);
  }

  // ----- the recursive equations the code runs -----

  lemma PrefixEmpty(p: Pattern, text: string)
    requires p.items == []
    ensures Prefix(p, text) <==> (p.atEnd ==> text == [])
  {
    forall n: nat | n <= |text| { EmptyWord(p.items, text[..n]); }
    if p.atEnd ==> text == [] { assert PrefixAt(p, text, 0); }
  }

  lemma PrefixOne(c: char, p: Pattern, text: string)
    ensures Prefix(Pattern([One(c)] + p.items, p.atEnd), text)
       <==> (text != [] && Fits(c, text[0]) && Prefix(p, text[1..]))
  {
    var q := Pattern([One(c)] + p.items, p.atEnd);
    if Prefix(q, text) {
      var n: nat :| PrefixAt(q, text, n);
      var k := WordSplit(One(c), p.items, text[..n]);
      assert text[1..][..n-1] == text[..n][k..];
      assert PrefixAt(p, text[1..], n - 1);
    }
    if text != [] && Fits(c, text[0]) && Prefix(p, text[1..]) {
      var n: nat :| PrefixAt(p, text[1..], n);
      WordCons(One(c), p.items, text[..1], text[1..][..n]);
      assert text[..1] + text[1..][..n] == text[..n+1];
      assert PrefixAt(q, text, n + 1);
    }
  }

  /** The first k characters of text fit c and p matches after them. */
  ghost predicate StarAt(c: char, p: Pattern, text: string, k: nat) {
    k <= |text| && (forall i :: 0 <= i < k ==> Fits(c, text[i])) && Prefix(p, text[k..])
  }

  ghost predicate StarPrefix(c: char, p: Pattern, text: string) { exists k: nat :: StarAt(c, p, text, k) }

  lemma PrefixStar(c: char, p: Pattern, text: string)
    ensures Prefix(Pattern([Star(c)] + p.items, p.atEnd), text) <==> StarPrefix(c, p, text)
  {
    var q := Pattern([Star(c)] + p.items, p.atEnd);
    if Prefix(q, text) {
      var n: nat :| PrefixAt(q, text, n);
      var k := WordSplit(Star(c), p.items, text[..n]);
      forall i | 0 <= i < k ensures Fits(c, text[i]) { assert text[..n][..k][i] == text[i]; }
      assert text[k..][..n-k] == text[..n][k..];
      assert PrefixAt(p, text[k..], n - k);
      assert StarAt(c, p, text, k);
    }
    if k: nat :| StarAt(c, p, text, k) {
      var n: nat :| PrefixAt(p, text[k..], n);
      WordCons(Star(c), p.items, text[..k], text[k..][..n]);
      assert text[..k] + text[k..][..n] == text[..k+n];
      assert PrefixAt(q, text, k + n);
    }
  }

  // ----- patterns without operators -----

  /** re, read character by character with '.' for any, stands in text at a. */
  predicate StandsAt(re: string, text: string, a: nat) {
    a + |re| <= |text| && forall i :: 0 <= i < |re| ==> re[i] == '.' || re[i] == text[a + i]
  }

  lemma {:induction false} PlainPrefix(re: string, text: string)
    requires '*' !in re && (re != "" ==> re[|re|-1] != '$')
    ensures Prefix(Parse(re), text) <==> StandsAt(re, text, 0)
  {
    if re == "" {
      PrefixEmpty(Parse(re), text);
    } else {
      PrefixOne(re[0], Parse(re[1..]), text);
      if text != "" {
        PlainPrefix(re[1..], text[1..]);
        assert StandsAt(re, text, 0) ==> forall i :: 0 <= i < |re| - 1 ==> re[1..][i] == re[i+1] && text[1..][i] == text[i+1];
        assert StandsAt(re[1..], text[1..], 0) ==> forall i :: 0 < i < |re| ==> re[i] == re[1..][i-1] && text[i] == text[1..][i-1];
      }
    }
  }

  /** grep for a pattern without '^', '*' and '$' is a search for its text, with '.' for any
      character. */
  lemma PlainSearch(re: string, text: string)
    requires '*' !in re && (re != "" ==> re[0] != '^' && re[|re|-1] != '$')
    ensures Matches(re, text) <==> exists a: nat :: StandsAt(re, text, a)
  {
    forall a: nat | a <= |text| ensures PrefixFrom(Parse(re), text, a) <==> StandsAt(re, text, a) {
      PlainPrefix(re, text[a..]);
      assert StandsAt(re, text[a..], 0) ==> forall i :: 0 <= i < |re| ==> text[a + i] == text[a..][i];
      assert StandsAt(re, text, a) ==> forall i :: 0 <= i < |re| ==> text[a..][i] == text[a + i];
    }
    if a: nat :| PrefixFrom(Parse(re), text, a) { assert StandsAt(re, text, a); }
    if a: nat :| StandsAt(re, text, a) { assert PrefixFrom(Parse(re), text, a); }
  }

  // ----- the code -----

  /** Correctness of matchhere: true exactly when the pattern matches at the front of text. */
  method MatchHere(re: string, text: string) returns (found: bool)
    ensures found <==> Prefix(Parse(re), text)
    decreases |re|, 0
  {
    if re == [] {
      PrefixEmpty(Parse(re), text);
      return true;
    }
    if |re| > 1 && re[1] == '*' {
      found := MatchStar(re[0], re[2..], text);
      var p := Parse(re[2..]);
      PrefixStar(re[0], p, text);
      assert Parse(re) == Pattern([Star(re[0])] + p.items, p.atEnd);
      return;
    }
    if re == "$" {
      PrefixEmpty(Parse(re), text);
      return text == [];
    }
    PrefixOne(re[0], Parse(re[1..]), text);
    if text != [] && (re[0] == '.' || re[0] == text[0]) {
      found := MatchHere(re[1..], text[1..]);
      return;
    }
    return false;
  }

  /** matchstar: zero or more characters that fit c, then re. */
  method MatchStar(c: char, re: string, text: string) returns (found: bool)
    ensures found <==> StarPrefix(c, Parse(re), text)
    decreases |re|, 1
  {
    var t := 0;
    while true
      invariant t <= |text|
      invariant forall i :: 0 <= i < t ==> Fits(c, text[i])
      invariant forall k: nat :: k < t ==> !StarAt(c, Parse(re), text, k)
      decreases |text| - t
    {
      var here := MatchHere(re, text[t..]);
      if here {
        assert StarAt(c, Parse(re), text, t);
        return true;
      }
      if !(t < |text| && (text[t] == c || c == '.')) { break; }
      t := t + 1;
    }
    return false;
  }

  /** Correctness of match, and with it of grep's line test. */
  method Match(re: string, text: string) returns (found: bool)
    ensures found <==> Matches(re, text)
  {
    if re != [] && re[0] == '^' {
      found := MatchHere(re[1..], text);
      return;
    }
    var t := 0;
    while true
      invariant t <= |text|
      invariant forall a: nat :: a < t ==> !PrefixFrom(Parse(re), text, a)
      decreases |text| - t
    {
      var here := MatchHere(re, text[t..]);
      if here {
        assert PrefixFrom(Parse(re), text, t);
        return true;
      }
      if t == |text| { break; }
      t := t + 1;
    }
    return false;
  }
}
