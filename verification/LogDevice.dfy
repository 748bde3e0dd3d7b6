/** log.c as code: the in-memory header list, the cached blocks and the disk, with
    the loops of write_log, write_head, read_head, install_trans, commit,
    recover_from_log and log_write. Every bwrite appends the new disk to `trace`. */
module LogDevice {
  import opened Basics
  import opened Blocks
  import opened Log

  /** Clean buffers agree with the disk; only listed blocks are dirty. */
  ghost predicate Coherent(cache: Cache, disk: Disk, lh: seq<nat>) {
    forall b :: b in cache ==> b < |disk| && if cache[b].dirty then b in lh else cache[b].data == disk[b]
  }

  /** v lists what bread returns for every home block. */
  ghost predicate Views(L: Layout, cache: Cache, disk: Disk, v: Disk) {
    && |v| == |disk| == L.nblocks
    && forall b :: 0 <= b < L.nblocks && L.Home(b) ==> Shown(cache, disk, b) == v[b]
  }

  lemma CommitExtends(L: Layout, v: Disk, lh: seq<nat>, ds: seq<Disk>, d: Disk)
    requires CommitTrace(L, v, lh, ds) && |ds| <= 2 * |lh| + 2
    requires d == Put(ds[|ds|-1], CommitWrite(L, ds[|ds|-1], v, lh, |ds| - 1))
    ensures CommitTrace(L, v, lh, ds + [d])
  {
    var es := ds + [d];
    forall k ensures CommitStep(L, v, lh, es, k) {
      assert CommitStep(L, v, lh, ds, k);
    }
  }

  lemma RecoverExtends(L: Layout, ds: seq<Disk>, d: Disk)
    requires RecoverTrace(L, ds) && |ds| <= |HeadList(ds[0][L.start])| + 1
    requires d == Put(ds[|ds|-1], RecoverWrite(L, ds[|ds|-1], HeadList(ds[0][L.start]), |ds| - 1))
    ensures RecoverTrace(L, ds + [d])
  {
    var es := ds + [d];
    var lh := HeadList(ds[0][L.start]);
    forall k ensures ReplayStep(L, lh, es, k) {
      assert ReplayStep(L, lh, ds, k);
    }
  }

  /** install_trans has done k of its writes, in commit (v is being committed) or in
      recovery. */
  ghost predicate Installing(L: Layout, commit: bool, v: Disk, lh: seq<nat>, ds: seq<Disk>, k: nat) {
    if commit then CommitTrace(L, v, lh, ds) && |ds| == |lh| + 2 + k
    else RecoverTrace(L, ds) && HeadList(ds[0][L.start]) == lh && |ds| == 1 + k
  }

  lemma InstallExtends(L: Layout, commit: bool, v: Disk, lh: seq<nat>, ds: seq<Disk>, k: nat, d: Disk)
    requires Installing(L, commit, v, lh, ds, k) && k < |lh|
    requires d == ds[|ds|-1][lh[k] := ds[|ds|-1][L.start + 1 + k]]
    ensures Installing(L, commit, v, lh, ds + [d], k + 1)
  {
    if commit { CommitExtends(L, v, lh, ds, d); } else { RecoverExtends(L, ds, d); }
  }

  /** Only list entries from m on are still dirty. */
  ghost predicate PinnedFrom(cache: Cache, lh: seq<nat>, m: nat)
    requires m <= |lh|
  {
    forall b :: b in cache && cache[b].dirty ==> b in lh[m..]
  }

  lemma PinnedLess(c0: Cache, c: Cache, c': Cache, lh: seq<nat>, m: nat)
    requires m < |lh| && PinnedFrom(c0, lh, m) && lh[m] in c' && !c'[lh[m]].dirty
    requires forall b :: b in c && c[b].dirty ==> b in c0 && c0[b].dirty
    requires forall b :: b in c' && b != lh[m] ==> b in c && c'[b] == c[b]
    ensures PinnedFrom(c', lh, m + 1)
  {
    assert lh[m..] == [lh[m]] + lh[m+1..];
  }

  class Device {
    const L: Layout
    var lh: seq<nat>                  // log.lh.block[0..log.lh.n]
    var outstanding: nat
    var cache: Cache
    var disk: Disk
    ghost var trace: seq<Disk>

    constructor (L: Layout, disk: Disk)
      requires L.Ok() && |disk| == L.nblocks
      ensures Valid() && this.L == L && this.disk == disk && lh == [] && cache == map[] && outstanding == 0
    {
      this.L := L;
      this.disk := disk;
      lh, outstanding, cache := [], 0, map[];
      trace := [disk];
    }

    ghost predicate Valid()
      reads this
    {
      && L.Ok() && |disk| == L.nblocks && ListOk(L, lh) && Coherent(cache, disk, lh)
      && |trace| > 0 && trace[|trace|-1] == disk
    }

    method Bread(b: nat) returns (data: Block)
      requires b < |disk|
      modifies this`cache
      ensures cache == old(cache)[b := Buf(data, b in old(cache) && old(cache)[b].dirty)]
      ensures data == Shown(old(cache), disk, b)
    {
      if b !in cache { cache := cache[b := Buf(disk[b], false)]; }
      data := cache[b].data;
    }

    method Bwrite(b: nat, data: Block)
      requires b < |disk|
      modifies this`cache, this`disk, this`trace
      ensures disk == old(disk)[b := data] && trace == old(trace) + [disk]
      ensures cache == old(cache)[b := Buf(data, false)]
    {
      disk := disk[b := data];
      cache := cache[b := Buf(data, false)];
      trace := trace + [disk];
    }

    /** Absorb the block if it is listed, append it otherwise; false is the panic
        "too big a transaction" or "log_write outside of trans". */
    method LogWrite(b: nat) returns (ok: bool)
      requires Valid() && L.Home(b) && b in cache
      modifies this`lh, this`cache
      ensures ok == (|old(lh)| < LOGSIZE && |old(lh)| < L.size - 1 && outstanding >= 1)
      ensures Valid()
      ensures ok ==> lh == (if b in old(lh) then old(lh) else old(lh) + [b])
      ensures ok ==> cache == old(cache)[b := Buf(old(cache)[b].data, true)]
      ensures !ok ==> lh == old(lh) && cache == old(cache)
    {
      ok := |lh| < LOGSIZE && |lh| < L.size - 1 && outstanding >= 1;
      if !ok { return; }
      var i := 0;
      while i < |lh| && lh[i] != b
        invariant 0 <= i <= |lh|
        invariant forall k :: 0 <= k < i ==> lh[k] != b
      {
        i := i + 1;
      }
      if i == |lh| { lh := lh + [b]; }
      cache := cache[b := Buf(cache[b].data, true)];
    }

    method WriteLog(ghost v: Disk)
      requires Valid() && Views(L, cache, disk, v) && trace == [disk]
      modifies this`cache, this`disk, this`trace
      ensures Valid() && Views(L, cache, disk, v)
      ensures CommitTrace(L, v, lh, trace) && |trace| == |lh| + 1 && trace[0] == old(disk)
    {
      hide Word;
      var tail := 0;
      while tail < |lh|
        invariant 0 <= tail <= |lh| && Valid() && Views(L, cache, disk, v)
        invariant CommitTrace(L, v, lh, trace) && |trace| == tail + 1 && trace[0] == old(disk)
      {
        var to := Bread(L.start + tail + 1);
        var from := Bread(lh[tail]);
        ghost var ds := trace;
        Bwrite(L.start + tail + 1, from);
        CommitExtends(L, v, lh, ds, disk);
        tail := tail + 1;
      }
    }

    /** The word loop of write_head. */
    method FillHead(hb: Block) returns (r: Block)
      requires |lh| <= LOGSIZE && Below(lh, TWO32)
      ensures r == HeadBlock(hb, lh)
    {
      r := SetWord(hb, 0, |lh|);
      var i := 0;
      while i < |lh|
        invariant 0 <= i <= |lh| && r == SetWords(SetWord(hb, 0, |lh|), 1, lh[..i])
      {
        r := SetWord(r, i + 1, lh[i]);
        i := i + 1;
        assert lh[..i][..i-1] == lh[..i-1];
      }
      assert lh[..i] == lh;
    }

    method WriteHead()
      requires Valid()
      modifies this`cache, this`disk, this`trace
      ensures Valid()
      ensures disk == old(disk)[L.start := HeadBlock(old(disk)[L.start], lh)] && trace == old(trace) + [disk]
      ensures cache == old(cache)[L.start := Buf(disk[L.start], false)]
    {
      assert L.start !in lh;
      var hb := Bread(L.start);
      hb := FillHead(hb);
      Bwrite(L.start, hb);
    }

    /** One turn of install_trans: log block tail goes to its home. */
    method InstallOne(tail: nat, ghost commit: bool, ghost v: Disk)
      requires Valid() && tail < |lh| && Installing(L, commit, v, lh, trace, tail) && PinnedFrom(cache, lh, tail)
      modifies this`cache, this`disk, this`trace
      ensures Valid() && Installing(L, commit, v, lh, trace, tail + 1) && trace[0] == old(trace[0])
      ensures PinnedFrom(cache, lh, tail + 1)
    {
      hide CommitTrace, RecoverTrace, Installing, Distinct, PinnedFrom;
      assert L.start + tail + 1 !in lh;
      var lbuf := Bread(L.start + tail + 1);
      var dbuf := Bread(lh[tail]);
      assert lbuf == disk[L.start + tail + 1];
      ghost var ds, c := trace, cache;
      Bwrite(lh[tail], lbuf);
      InstallExtends(L, commit, v, lh, ds, tail, disk);
      PinnedLess(old(cache), c, cache, lh, tail);
    }

    method InstallTrans(ghost commit: bool, ghost v: Disk)
      requires Valid() && Installing(L, commit, v, lh, trace, 0)
      modifies this`cache, this`disk, this`trace
      ensures Valid() && Installing(L, commit, v, lh, trace, |lh|) && trace[0] == old(trace[0])
      ensures forall b :: b in cache ==> !cache[b].dirty
    {
      hide CommitTrace, RecoverTrace, Installing, Distinct;
      var tail := 0;
      assert lh[0..] == lh;
      while tail < |lh|
        invariant 0 <= tail <= |lh| && Valid()
        invariant Installing(L, commit, v, lh, trace, tail) && trace[0] == old(trace[0])
        invariant PinnedFrom(cache, lh, tail)
      {
        InstallOne(tail, commit, v);
        tail := tail + 1;
      }
    }

    /** commit() performs exactly the writes of a complete CommitTrace and leaves the
        committed contents on the home blocks, nothing pinned and an empty log. */
    method Commit(ghost v: Disk)
      requires Valid() && CleanLog(L, disk) && Views(L, cache, disk, v)
      modifies this`lh, this`cache, this`disk, this`trace
      ensures Valid() && lh == [] && CleanLog(L, disk) && SameHome(L, disk, v)
      ensures forall b :: b in cache ==> !cache[b].dirty
      ensures old(lh) != [] ==> trace[0] == old(disk) && |trace| == 2 * |old(lh)| + 3
                                && CommitTrace(L, v, old(lh), trace)
      ensures old(lh) == [] ==> disk == old(disk) && trace == old(trace)
    {
      hide Stage, HeadOk, HeadList, RecoverTrace, CommitStep;
      if |lh| > 0 {
        trace := [disk];
        InitialStage(L, cache, disk, lh, v);
        WriteLog(v);
        ghost var ds := trace;
        WriteHead();
        CommitExtends(L, v, lh, ds, disk);
        InstallTrans(true, v);
        ds := trace;
        ghost var all := lh;
        lh := [];
        WriteHead();
        CommitExtends(L, v, all, ds, disk);
        CommitDone(L, v, all, trace);
      }
    }

    method ReadHead()
      requires Valid() && lh == [] && Recoverable(L, disk)
      modifies this`lh, this`cache
      ensures Valid() && lh == HeadList(disk[L.start])
    {
      var buf := Bread(L.start);
      var n := Word(buf, 0);
      var i := 0;
      while i < n
        invariant 0 <= i <= n && lh == HeadList(buf)[..i]
        invariant forall b :: b in cache ==> b < |disk| && !cache[b].dirty && cache[b].data == disk[b]
      {
        lh := lh + [Word(buf, 1 + i)];
        i := i + 1;
      }
      assert HeadList(buf)[..n] == HeadList(buf);
    }

    /** recover_from_log() performs exactly the writes of a complete RecoverTrace. */
    method RecoverFromLog()
      requires Valid() && lh == [] && Recoverable(L, disk)
      modifies this`lh, this`cache, this`disk, this`trace
      ensures Valid() && lh == [] && CleanLog(L, disk)
      ensures RecoverTrace(L, trace) && trace[0] == old(disk)
      ensures |trace| == |HeadList(old(disk)[L.start])| + 2
      ensures forall b :: b in cache ==> !cache[b].dirty
    {
      trace := [disk];
      ReadHead();
      InstallTrans(false, disk);
      ghost var ds := trace;
      lh := [];
      WriteHead();
      RecoverExtends(L, ds, disk);
      HeadRoundTrip(ds[|ds|-1][L.start], []);
    }
  }

  lemma InitialStage(L: Layout, cache: Cache, disk: Disk, lh: seq<nat>, v: Disk)
    requires CleanLog(L, disk) && ListOk(L, lh) && Views(L, cache, disk, v) && Coherent(cache, disk, lh)
    ensures Stage(L, disk, v, lh, 0)
  {
  }

  lemma CommitDone(L: Layout, v: Disk, lh: seq<nat>, ds: seq<Disk>)
    requires CommitTrace(L, v, lh, ds) && |ds| == 2 * |lh| + 3 && Stage(L, ds[0], v, lh, 0)
    ensures CleanLog(L, ds[|ds|-1]) && SameHome(L, ds[|ds|-1], v)
  {
    var d := ds[|ds|-1];
    CommitStages(L, v, lh, ds, |ds| - 1);
    StageRecovers(L, d, v, lh, |ds| - 1);
  }
}
