/** The pipe buffer (pipe.c): the copy loops that run while the pipe's lock is held, with
    byte counters that wrap at 2^32. */
module Pipe {
  import opened Basics

  const PIPESIZE: nat := 512

  /** Ring contents and counters for the bytes sent so far, of which the first `got` have
      been received. */
  ghost predicate Holds(data: seq<byte>, nread: nat, nwrite: nat, sent: seq<byte>, got: nat) {
    && |data| == PIPESIZE && got <= |sent| <= got + PIPESIZE
    && nread == got % TWO32 && nwrite == |sent| % TWO32
    && forall k :: got <= k < |sent| ==> InSlot(data, sent, k)
  }

  ghost predicate InSlot(data: seq<byte>, sent: seq<byte>, k: nat)
    requires |data| == PIPESIZE && k < |sent|
  {
    data[k % PIPESIZE] == sent[k]
  }

  /** The counter tests mean full and empty, wrapped or not. */
  lemma Tests(data: seq<byte>, nread: nat, nwrite: nat, sent: seq<byte>, got: nat)
    requires Holds(data, nread, nwrite, sent, got)
    ensures nwrite == (nread + PIPESIZE) % TWO32 <==> |sent| == got + PIPESIZE
    ensures nread == nwrite <==> |sent| == got
    ensures nwrite % PIPESIZE == |sent| % PIPESIZE && nread % PIPESIZE == got % PIPESIZE
  {
    var d := |sent| - got;
    Residues(got, d);
    Residues(got + d, 0);
  }

  lemma ModSum(a: nat, d: nat)
    requires d <= PIPESIZE
    ensures (a + d) % TWO32 == if a % TWO32 + d < TWO32 then a % TWO32 + d else a % TWO32 + d - TWO32
  {
    var q, r := a / TWO32, a % TWO32;
    if r + d < TWO32 {
      assert a + d == q * TWO32 + (r + d);
    } else {
      assert a + d == (q + 1) * TWO32 + (r + d - TWO32);
    }
  }

  lemma ModMod(a: nat)
    ensures a % TWO32 % PIPESIZE == a % PIPESIZE
  {
    var q, r := a / TWO32, a % TWO32;
    assert a == (q * 0x80_0000) * PIPESIZE + r;
  }

  lemma Residues(a: nat, d: nat)
    requires d <= PIPESIZE
    ensures (a + d) % TWO32 == (a % TWO32 + d) % TWO32
    ensures a % TWO32 == (a + d) % TWO32 <==> d == 0
    ensures (a % TWO32 + PIPESIZE) % TWO32 == (a + d) % TWO32 <==> d == PIPESIZE
    ensures a % TWO32 % PIPESIZE == a % PIPESIZE
  {
    ModSum(a, d);
    ModSum(a, PIPESIZE);
    ModMod(a);
  }

  lemma SentOne(data: seq<byte>, nread: nat, nwrite: nat, sent: seq<byte>, got: nat, b: byte)
    requires Holds(data, nread, nwrite, sent, got) && |sent| < got + PIPESIZE
    ensures Holds(data[nwrite % PIPESIZE := b], nread, (nwrite + 1) % TWO32, sent + [b], got)
  {
    Tests(data, nread, nwrite, sent, got);
    Residues(|sent|, 1);
    var data', sent' := data[nwrite % PIPESIZE := b], sent + [b];
    forall k | got <= k < |sent'| ensures InSlot(data', sent', k) {
      if k < |sent| { assert InSlot(data, sent, k); Apart(k, |sent|); }
    }
  }

  /** Bytes in flight are fewer than PIPESIZE apart, so they sit in different slots. */
  lemma Apart(j: nat, k: nat)
    requires j < k < j + PIPESIZE
    ensures j % PIPESIZE != k % PIPESIZE
  {
  }

  lemma GotOne(data: seq<byte>, nread: nat, nwrite: nat, sent: seq<byte>, got: nat)
    requires Holds(data, nread, nwrite, sent, got) && got < |sent|
    ensures data[nread % PIPESIZE] == sent[got]
    ensures Holds(data, (nread + 1) % TWO32, nwrite, sent, got + 1)
  {
    Tests(data, nread, nwrite, sent, got);
    Residues(got, 1);
    assert InSlot(data, sent, got);
  }

  class Buffer {
    const data: array<byte>
    var nread: nat
    var nwrite: nat
    ghost var sent: seq<byte>        // every byte accepted, in order
    ghost var got: nat               // how many have been delivered

    ghost predicate Valid()
      reads this, data
    {
      Holds(data[..], nread, nwrite, sent, got)
    }

    constructor ()
      ensures Valid() && sent == [] && got == 0 && fresh(data)
    {
      data := new byte[PIPESIZE](_ => 0);
      nread, nwrite, sent, got := 0, 0, [], 0;
    }

    /** pipewrite's copying from addr[i..] until it is done or the pipe is full. */
    method WriteSome(addr: seq<byte>, i: nat) returns (j: nat)
      requires Valid() && i <= |addr|
      modifies this`nwrite, this`sent, data
      ensures Valid() && i <= j <= |addr| && sent == old(sent) + addr[i..j]
      ensures j < |addr| ==> |sent| == got + PIPESIZE
    {
      j := i;
      while j < |addr|
        invariant Valid() && i <= j <= |addr| && sent == old(sent) + addr[i..j]
      {
        Tests(data[..], nread, nwrite, sent, got);
        if nwrite == (nread + PIPESIZE) % TWO32 { return; }
        SentOne(data[..], nread, nwrite, sent, got, addr[j]);
        data[nwrite % PIPESIZE] := addr[j];
        nwrite := (nwrite + 1) % TWO32;
        sent := sent + [addr[j]];
        j := j + 1;
        assert addr[i..j] == addr[i..j-1] + [addr[j-1]];
      }
    }

    /** piperead's copying: the next bytes that were sent, in order. */
    method ReadSome(n: nat) returns (addr: seq<byte>)
      requires Valid()
      modifies this`nread, this`got
      ensures Valid() && got == old(got) + |addr| && addr == sent[old(got)..got]
      ensures |addr| == if |sent| - old(got) < n then |sent| - old(got) else n
    {
      addr := [];
      var i := 0;
      while i < n
        invariant Valid() && 0 <= i <= n && |addr| == i && got == old(got) + i && addr == sent[old(got)..got]
      {
        Tests(data[..], nread, nwrite, sent, got);
        if nread == nwrite { return; }
        GotOne(data[..], nread, nwrite, sent, got);
        addr := addr + [data[nread % PIPESIZE]];
        nread := (nread + 1) % TWO32;
        got := got + 1;
        i := i + 1;
      }
    }
  }
}
