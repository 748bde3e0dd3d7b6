/** The doubly linked list of buffers (bio.c:38-54, 128-137): nodes are indices, the list
    head is one of them, and ring lists the buffers from most to least recently used. */
module BufRing {
  import opened Basics

  function After(ring: seq<nat>, head: nat, k: nat): (n: nat) { if k + 1 < |ring| then ring[k+1] else head }
  function Before(ring: seq<nat>, head: nat, k: nat): (n: nat)
    requires k <= |ring|
  {
    if k > 0 then ring[k-1] else head
  }

  predicate LinkAt(next: seq<nat>, prev: seq<nat>, ring: seq<nat>, head: nat, k: nat)
    requires k < |ring|
  {
    && ring[k] < |next| && ring[k] < |prev| && ring[k] != head
    && next[ring[k]] == After(ring, head, k) && prev[ring[k]] == Before(ring, head, k)
  }

  /** Following next from the head gives ring, following prev gives it backwards. */
  predicate Linked(next: seq<nat>, prev: seq<nat>, ring: seq<nat>, head: nat) {
    && |next| == |prev| && head < |next| && NoDup(ring)
    && next[head] == (if ring == [] then head else ring[0])
    && prev[head] == Before(ring, head, |ring|)
    && forall k: nat :: k < |ring| ==> LinkAt(next, prev, ring, head, k)
  }

  function Removed(ring: seq<nat>, k: nat): (r: seq<nat>)
    requires k < |ring|
  {
    ring[..k] + ring[k+1..]
  }

  function ToFront(ring: seq<nat>, k: nat): (r: seq<nat>)
    requires k < |ring|
  {
    [ring[k]] + Removed(ring, k)
  }

  /** Inserting a node that is not in the list behind the head. */
  lemma Push(next: seq<nat>, prev: seq<nat>, ring: seq<nat>, head: nat, b: nat)
    requires Linked(next, prev, ring, head) && b < |next| && b != head && b !in ring
    ensures next[head] < |next|
    ensures var first := next[head];
      Linked(next[b := first][head := b], prev[b := head][first := b], [b] + ring, head)
  {
    var first := next[head];
    if ring != [] { assert LinkAt(next, prev, ring, head, 0); }
    var next', prev', ring' := next[b := first][head := b], prev[b := head][first := b], [b] + ring;
    forall k: nat | k < |ring'| ensures LinkAt(next', prev', ring', head, k) {
      if k > 0 {
        assert LinkAt(next, prev, ring, head, k - 1);
        assert ring'[k] == ring[k-1] && ring[k-1] in ring;
        if k > 1 { assert ring[k-1] != ring[0]; }
      }
    }
    if ring != [] { assert prev[head] == ring[|ring|-1] == ring'[|ring'|-1]; }
    forall j, k | 0 <= j < k < |ring'| ensures ring'[j] != ring'[k] {
      assert ring'[k] == ring[k-1] && ring[k-1] in ring;
    }
    assert Before(ring', head, |ring'|) == ring'[|ring'|-1];
  }

  lemma DropLink(next: seq<nat>, prev: seq<nat>, ring: seq<nat>, head: nat, b: nat, j: nat)
    requires Linked(next, prev, ring, head) && b < |ring| && j < |Removed(ring, b)|
    requires LinkAt(next, prev, ring, head, b) && next[ring[b]] < |next| && prev[ring[b]] < |prev|
    ensures var n, p := next[ring[b]], prev[ring[b]];
      LinkAt(next[p := n], prev[n := p], Removed(ring, b), head, j)
  {
    var n, p := next[ring[b]], prev[ring[b]];
    var ring' := Removed(ring, b);
    var k := if j < b then j else j + 1;
    assert ring'[j] == ring[k];
    assert LinkAt(next, prev, ring, head, k);
    assert j + 1 < |ring'| ==> ring'[j+1] == ring[if j + 1 < b then j + 1 else j + 2];
    assert j > 0 ==> ring'[j-1] == ring[if j - 1 < b then j - 1 else j];
    assert p == ring[k] <==> k + 1 == b;
    assert n == ring[k] <==> k == b + 1;
  }

  lemma NoDupDrop(ring: seq<nat>, k: nat)
    requires NoDup(ring) && k < |ring|
    ensures NoDup(Removed(ring, k)) && ring[k] !in Removed(ring, k)
    ensures forall x :: x in Removed(ring, k) <==> x in ring && x != ring[k]
  {
    var r := Removed(ring, k);
    forall j | 0 <= j < |r| ensures r[j] == ring[if j < k then j else j + 1] {}
    forall x | x in ring && x != ring[k] ensures x in r {
      var j :| 0 <= j < |ring| && ring[j] == x;
      assert r[if j < k then j else j - 1] == x;
    }
  }

  /** Taking one node out leaves the others linked in the same order. */
  lemma Unlink(next: seq<nat>, prev: seq<nat>, ring: seq<nat>, head: nat, b: nat)
    requires Linked(next, prev, ring, head) && b < |ring|
    ensures LinkAt(next, prev, ring, head, b) && next[ring[b]] < |next| && prev[ring[b]] < |prev|
    ensures var n, p := next[ring[b]], prev[ring[b]];
      Linked(next[p := n], prev[n := p], Removed(ring, b), head)
  {
    assert LinkAt(next, prev, ring, head, b);
    if b + 1 < |ring| { assert LinkAt(next, prev, ring, head, b + 1); }
    if b > 0 { assert LinkAt(next, prev, ring, head, b - 1); }
    var n, p := next[ring[b]], prev[ring[b]];
    var next', prev', ring' := next[p := n], prev[n := p], Removed(ring, b);
    forall j: nat | j < |ring'| ensures LinkAt(next', prev', ring', head, j) {
      DropLink(next, prev, ring, head, b, j);
    }
    NoDupDrop(ring, b);
    DropEnds(next, prev, ring, head, b);
  }

  lemma DropEnds(next: seq<nat>, prev: seq<nat>, ring: seq<nat>, head: nat, b: nat)
    requires Linked(next, prev, ring, head) && b < |ring|
    requires LinkAt(next, prev, ring, head, b) && next[ring[b]] < |next| && prev[ring[b]] < |prev|
    ensures var n, p := next[ring[b]], prev[ring[b]]; var ring' := Removed(ring, b);
      && next[p := n][head] == (if ring' == [] then head else ring'[0])
      && prev[n := p][head] == Before(ring', head, |ring'|)
  {
    assert LinkAt(next, prev, ring, head, b);
    var ring' := Removed(ring, b);
    if b > 0 { assert ring'[0] == ring[0]; assert LinkAt(next, prev, ring, head, b - 1); }
    if b == 0 && ring' != [] { assert ring'[0] == ring[1]; }
    if b + 1 < |ring| { assert LinkAt(next, prev, ring, head, b + 1); assert ring'[|ring'|-1] == ring[|ring|-1]; }
    if b + 1 == |ring| && ring' != [] { assert ring'[|ring'|-1] == ring[|ring|-2]; }
  }
}
