/** Shared vocabulary. */
module Basics {

  datatype Option<T> = None | Some(value: T)

  // param.h
  const MAXOPBLOCKS: nat := 10
  const LOGSIZE: nat := MAXOPBLOCKS * 3
  const NBUF: nat := MAXOPBLOCKS * 3

  const TWO32: nat := 0x1_0000_0000

  type byte = x: int | 0 <= x < 256

  predicate NoDup(s: seq<nat>) { forall j, k :: 0 <= j < k < |s| ==> s[j] != s[k] }

  function Max(a: nat, b: nat): (m: nat) { if a < b then b else a }

  lemma {:induction false} Subset(x: set<nat>, y: set<nat>)
    requires x <= y
    ensures |x| <= |y|
    decreases x
  {
    if x != {} {
      var e :| e in x;
      Subset(x - {e}, y - {e});
    }
  }

  lemma Quotient(m: nat, q: nat, r: nat)
    requires r < m
    ensures (q * m + r) / m == q
  {
    var x := q * m + r;
    var d := x / m - q;
    assert x == (x / m) * m + x % m;
    assert d * m == r - x % m;
    assert d >= 1 ==> d * m >= m;
    assert d <= -1 ==> d * m + m <= 0;
  }
}
