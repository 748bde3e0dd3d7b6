/** The redo log (log.c): the exact sequence of disk block writes made by
    commit and by recovery, and what a crash between any two of them leaves. */
module Log {
  import opened Basics
  import opened Blocks

  /** log.start, log.size and the number of blocks on the device. */
  datatype Layout = Layout(start: nat, size: nat, nblocks: nat) {
    predicate Ok() { size >= 1 && start + size <= nblocks < TWO32 }
    predicate Home(b: nat) { b < nblocks && !(start <= b < start + size) }
  }

  ghost predicate Distinct(lh: seq<nat>) {
    forall i, j :: 0 <= i < j < |lh| ==> lh[i] != lh[j]
  }

  predicate Below(lh: seq<nat>, m: nat) {
    forall i :: 0 <= i < |lh| ==> lh[i] < m
  }

  /** A header list that names distinct home blocks and fits the log area. */
  ghost predicate ListOk(L: Layout, lh: seq<nat>) {
    && |lh| <= LOGSIZE && |lh| < L.size
    && Distinct(lh)
    && forall i :: 0 <= i < |lh| ==> L.Home(lh[i])
  }

  // ----- header block -----

  function HeadBlock(b: Block, lh: seq<nat>): (r: Block)
    requires |lh| <= LOGSIZE
    requires Below(lh, TWO32)
  {
    SetWords(SetWord(b, 0, |lh|), 1, lh)
  }

  predicate HeadOk(b: Block) { Word(b, 0) <= LOGSIZE }

  /** What read_head loads. */
  function HeadList(b: Block): (lh: seq<nat>)
    requires HeadOk(b)
  {
    seq(Word(b, 0), i requires 0 <= i < Word(b, 0) => Word(b, 1 + i))
  }

  /** Reading back a written header gives the list, whatever the block held
      before (words after the list keep their stale contents). */
  lemma HeadRoundTrip(b: Block, lh: seq<nat>)
    requires |lh| <= LOGSIZE
    requires Below(lh, TWO32)
    ensures HeadOk(HeadBlock(b, lh)) && HeadList(HeadBlock(b, lh)) == lh
  {
    var c := SetWord(b, 0, |lh|);
    forall i: nat | i <= |lh|
      ensures Word(HeadBlock(b, lh), i) == if i == 0 then |lh| else lh[i-1]
    {
      WordSetWords(c, 1, lh, i);
      WordSetWord(b, 0, |lh|, i);
    }
  }

  // ----- the block writes of commit and recovery -----

  function Put(d: Disk, w: (nat, Block)): (r: Disk)
    requires w.0 < |d|
    ensures |r| == |d|
  {
    d[w.0 := w.1]
  }

  /** A list whose blocks and log slots are on the device; ListOk says more. */
  predicate Writable(L: Layout, lh: seq<nat>) { |lh| <= LOGSIZE && L.start + |lh| < L.nblocks && Below(lh, L.nblocks) }

  /** Write number k of commit, computed from the disk d at that moment and the
      contents v of the cached blocks. With n = |lh| the writes are n log blocks,
      the header, n home blocks and the cleared header. */
  function CommitWrite(L: Layout, d: Disk, v: Disk, lh: seq<nat>, k: nat): (w: (nat, Block))
    requires L.Ok() && |d| == |v| == L.nblocks
    requires Writable(L, lh)
    requires k < 2 * |lh| + 2
    ensures w.0 < L.nblocks
  {
    var n := |lh|;
    if k < n then (L.start + 1 + k, v[lh[k]])
    else if k == n then (L.start, HeadBlock(d[L.start], lh))
    else if k <= 2 * n then (lh[k-n-1], d[L.start + 1 + (k-n-1)])
    else (L.start, HeadBlock(d[L.start], []))
  }

  /** ds[k] is ds[k-1] after write number k-1 of the commit. */
  ghost predicate CommitStep(L: Layout, v: Disk, lh: seq<nat>, ds: seq<Disk>, k: int)
    requires L.Ok() && |v| == L.nblocks && ListOk(L, lh) && |ds| <= 2 * |lh| + 3
    requires forall i :: 0 <= i < |ds| ==> |ds[i]| == L.nblocks
  {
    0 < k < |ds| ==> ds[k] == Put(ds[k-1], CommitWrite(L, ds[k-1], v, lh, k - 1))
  }

  /** ds[0], ds[1], ... are the disks a commit passes through, one block write
      apart; a shorter sequence is a commit cut by a crash. */
  ghost predicate CommitTrace(L: Layout, v: Disk, lh: seq<nat>, ds: seq<Disk>) {
    && L.Ok() && |v| == L.nblocks && ListOk(L, lh)
    && 1 <= |ds| <= 2 * |lh| + 3
    && (forall k :: 0 <= k < |ds| ==> |ds[k]| == L.nblocks)
    && (forall k :: CommitStep(L, v, lh, ds, k))
  }

  /** Write number k of recover_from_log, for the list lh that read_head loaded. */
  function RecoverWrite(L: Layout, d: Disk, lh: seq<nat>, k: nat): (w: (nat, Block))
    requires L.Ok() && |d| == L.nblocks
    requires Writable(L, lh)
    requires k <= |lh|
    ensures w.0 < L.nblocks
  {
    if k < |lh| then (lh[k], d[L.start + 1 + k]) else (L.start, HeadBlock(d[L.start], []))
  }

  /** ds[k] is ds[k-1] after write number k-1 of a recovery that loaded lh. */
  ghost predicate ReplayStep(L: Layout, lh: seq<nat>, ds: seq<Disk>, k: int)
    requires L.Ok() && ListOk(L, lh) && |ds| <= |lh| + 2
    requires forall i :: 0 <= i < |ds| ==> |ds[i]| == L.nblocks
  {
    0 < k < |ds| ==> ds[k] == Put(ds[k-1], RecoverWrite(L, ds[k-1], lh, k - 1))
  }

  /** The disks one run of recover_from_log passes through, complete or cut. */
  ghost predicate RecoverTrace(L: Layout, ds: seq<Disk>) {
    && L.Ok() && 1 <= |ds| && (forall k :: 0 <= k < |ds| ==> |ds[k]| == L.nblocks)
    && HeadOk(ds[0][L.start])
    && var lh := HeadList(ds[0][L.start]);
    && ListOk(L, lh) && |ds| <= |lh| + 2
    && (forall k :: ReplayStep(L, lh, ds, k))
  }

  // ----- the cache in front of the disk -----

  /** A cached block; dirty is B_DIRTY, which pins it. */
  datatype Buf = Buf(data: Block, dirty: bool)

  type Cache = map<nat, Buf>

  /** Contents as bread returns them. */
  function Shown(cache: Cache, disk: Disk, b: nat): (data: Block)
    requires b < |disk|
  {
    if b in cache then cache[b].data else disk[b]
  }

  // ----- what a disk recovers to -----

  ghost predicate SameHome(L: Layout, d: Disk, e: Disk)
    requires |d| == |e| == L.nblocks
  {
    forall b :: 0 <= b < L.nblocks && L.Home(b) ==> d[b] == e[b]
  }

  /** The header on disk is one that recovery can follow. */
  ghost predicate Recoverable(L: Layout, d: Disk) {
    L.Ok() && |d| == L.nblocks && HeadOk(d[L.start]) && ListOk(L, HeadList(d[L.start]))
  }

  /** v is the home contents that replaying the log of d describes: listed blocks
      come from the log area, all others stay. */
  ghost predicate RecoversTo(L: Layout, d: Disk, v: Disk) {
    && Recoverable(L, d) && |v| == L.nblocks
    && var lh := HeadList(d[L.start]);
    && (forall t :: 0 <= t < |lh| ==> v[lh[t]] == d[L.start + 1 + t])
    && (forall b :: 0 <= b < L.nblocks && L.Home(b) && b !in lh ==> v[b] == d[b])
  }

  lemma RecoversToUnique(L: Layout, d: Disk, v: Disk, w: Disk)
    requires RecoversTo(L, d, v) && RecoversTo(L, d, w)
    ensures SameHome(L, v, w)
  {
    var lh := HeadList(d[L.start]);
    forall b | 0 <= b < L.nblocks && L.Home(b) ensures v[b] == w[b] {
      if b in lh {
        var t :| 0 <= t < |lh| && lh[t] == b;
        assert v[lh[t]] == d[L.start + 1 + t];
      }
    }
  }

  /** A disk with an empty log recovers to itself. */
  ghost predicate CleanLog(L: Layout, d: Disk) {
    L.Ok() && |d| == L.nblocks && HeadOk(d[L.start]) && HeadList(d[L.start]) == []
  }

  /** Stage k of a commit: d is the disk after k writes, v the contents being committed. */
  ghost predicate Stage(L: Layout, d: Disk, v: Disk, lh: seq<nat>, k: nat) {
    && L.Ok() && |d| == |v| == L.nblocks && ListOk(L, lh) && k <= 2 * |lh| + 2
    && HeadOk(d[L.start])
    && HeadList(d[L.start]) == (if |lh| < k <= 2 * |lh| + 1 then lh else [])
    && (forall t :: 0 <= t < |lh| && t < k ==> d[L.start + 1 + t] == v[lh[t]])
    && (forall t :: 0 <= t < |lh| && t < k - |lh| - 1 ==> d[lh[t]] == v[lh[t]])
    && (forall b :: 0 <= b < L.nblocks && L.Home(b) && b !in lh ==> d[b] == v[b])
  }

  lemma StageLogBlock(L: Layout, d: Disk, v: Disk, lh: seq<nat>, k: nat)
    requires Stage(L, d, v, lh, k) && k < |lh|
    ensures Stage(L, d[L.start + 1 + k := v[lh[k]]], v, lh, k + 1)
  {
  }

  /** Both header writes of a commit: only the list on disk changes. */
  lemma StageNewHead(L: Layout, d: Disk, v: Disk, lh: seq<nat>, k: nat, hb: Block)
    requires Stage(L, d, v, lh, k) && (k == |lh| || k == 2 * |lh| + 1)
    requires HeadOk(hb) && HeadList(hb) == if k == |lh| then lh else []
    ensures Stage(L, d[L.start := hb], v, lh, k + 1)
  {
    hide HeadOk, HeadList, Distinct;
  }

  lemma StageHead(L: Layout, d: Disk, v: Disk, lh: seq<nat>)
    requires Stage(L, d, v, lh, |lh|)
    ensures Stage(L, d[L.start := HeadBlock(d[L.start], lh)], v, lh, |lh| + 1)
  {
    hide HeadOk, HeadList, HeadBlock, Distinct;
    HeadRoundTrip(d[L.start], lh);
    StageNewHead(L, d, v, lh, |lh|, HeadBlock(d[L.start], lh));
  }

  lemma StageInstall(L: Layout, d: Disk, v: Disk, lh: seq<nat>, t: nat)
    requires t < |lh| && Stage(L, d, v, lh, |lh| + 1 + t)
    ensures Stage(L, d[lh[t] := d[L.start + 1 + t]], v, lh, |lh| + 2 + t)
  {
  }

  lemma StageClear(L: Layout, d: Disk, v: Disk, lh: seq<nat>)
    requires Stage(L, d, v, lh, 2 * |lh| + 1)
    ensures Stage(L, d[L.start := HeadBlock(d[L.start], [])], v, lh, 2 * |lh| + 2)
  {
    hide HeadOk, HeadList, HeadBlock, Distinct;
    HeadRoundTrip(d[L.start], []);
    StageNewHead(L, d, v, lh, 2 * |lh| + 1, HeadBlock(d[L.start], []));
  }

  lemma StageStep(L: Layout, d: Disk, v: Disk, lh: seq<nat>, k: nat)
    requires L.Ok() && |d| == |v| == L.nblocks && ListOk(L, lh)
    requires Stage(L, d, v, lh, k) && k < 2 * |lh| + 2
    ensures Stage(L, Put(d, CommitWrite(L, d, v, lh, k)), v, lh, k + 1)
  {
    hide Stage, HeadBlock, Distinct;
    if k < |lh| {
      StageLogBlock(L, d, v, lh, k);
    } else if k == |lh| {
      StageHead(L, d, v, lh);
    } else if k <= 2 * |lh| {
      StageInstall(L, d, v, lh, k - |lh| - 1);
    } else {
      StageClear(L, d, v, lh);
    }
  }

  /** Before the header write a crash recovers to the disk as it was; from the
      header write on it recovers to the committed contents. */
  lemma StageRecovers(L: Layout, d: Disk, v: Disk, lh: seq<nat>, k: nat)
    requires Stage(L, d, v, lh, k)
    ensures k <= |lh| ==> RecoversTo(L, d, d)
    ensures k > |lh| ==> RecoversTo(L, d, v)
  {
    if k == 2 * |lh| + 2 {
      forall b | 0 <= b < L.nblocks && L.Home(b) ensures d[b] == v[b] {
        if b in lh { var t :| 0 <= t < |lh| && lh[t] == b; }
      }
    }
  }

  lemma {:induction false} CommitStages(L: Layout, v: Disk, lh: seq<nat>, ds: seq<Disk>, k: nat)
    requires CommitTrace(L, v, lh, ds) && Stage(L, ds[0], v, lh, 0) && k < |ds|
    ensures Stage(L, ds[k], v, lh, k)
  {
    hide Stage, CommitWrite;
    if k > 0 {
      CommitStages(L, v, lh, ds, k - 1);
      assert CommitStep(L, v, lh, ds, k);
      StageStep(L, ds[k-1], v, lh, k - 1);
    }
  }

  /** Until the header is written, commit changes no home block. */
  lemma {:induction false} CommitHomes(L: Layout, v: Disk, lh: seq<nat>, ds: seq<Disk>, k: nat)
    requires CommitTrace(L, v, lh, ds) && k < |ds| && k <= |lh|
    ensures SameHome(L, ds[k], ds[0])
  {
    if k > 0 {
      CommitHomes(L, v, lh, ds, k - 1);
      assert CommitStep(L, v, lh, ds, k);
    }
  }

  /** Each write of recovery keeps what the disk recovers to. */
  lemma RecoverStep(L: Layout, d: Disk, v: Disk, k: nat)
    requires RecoversTo(L, d, v)
    requires var lh := HeadList(d[L.start]); k <= |lh| && forall t :: 0 <= t < k ==> d[lh[t]] == v[lh[t]]
    ensures var lh := HeadList(d[L.start]);
            var d' := Put(d, RecoverWrite(L, d, lh, k));
            && RecoversTo(L, d', v)
            && (if k < |lh| then HeadList(d'[L.start]) == lh && (forall t :: 0 <= t <= k ==> d'[lh[t]] == v[lh[t]])
                else HeadList(d'[L.start]) == [] && SameHome(L, d', v))
  {
    var lh := HeadList(d[L.start]);
    if k == |lh| {
      HeadRoundTrip(d[L.start], []);
      forall b | 0 <= b < L.nblocks && L.Home(b) ensures d[b] == v[b] {
        if b in lh { var t :| 0 <= t < |lh| && lh[t] == b; }
      }
    }
  }

  lemma {:induction false} RecoverRun(L: Layout, ds: seq<Disk>, v: Disk, k: nat)
    requires RecoverTrace(L, ds) && RecoversTo(L, ds[0], v) && k < |ds|
    ensures RecoversTo(L, ds[k], v)
    ensures var lh := HeadList(ds[0][L.start]);
            if k <= |lh| then HeadList(ds[k][L.start]) == lh && (forall t :: 0 <= t < k ==> ds[k][lh[t]] == v[lh[t]])
            else HeadList(ds[k][L.start]) == [] && SameHome(L, ds[k], v)
  {
    hide HeadBlock, RecoverWrite, SameHome, Distinct;
    if k > 0 {
      RecoverRun(L, ds, v, k - 1);
      assert ReplayStep(L, HeadList(ds[0][L.start]), ds, k);
      RecoverStep(L, ds[k-1], v, k - 1);
    }
  }

  /** One reboot whose recovery is cut after some of its writes (or none, or all). */
  ghost predicate Reboot(L: Layout, d: Disk, e: Disk) {
    exists ds :: RecoverTrace(L, ds) && ds[0] == d && ds[|ds|-1] == e
  }

  lemma RebootKeeps(L: Layout, d: Disk, e: Disk, v: Disk)
    requires Reboot(L, d, e) && RecoversTo(L, d, v)
    ensures RecoversTo(L, e, v)
  {
    var ds :| RecoverTrace(L, ds) && ds[0] == d && ds[|ds|-1] == e;
    RecoverRun(L, ds, v, |ds| - 1);
  }

  lemma {:induction false} RebootsKeep(L: Layout, es: seq<Disk>, v: Disk, m: nat)
    requires m < |es| && RecoversTo(L, es[0], v)
    requires forall i :: 0 < i < |es| ==> Reboot(L, es[i-1], es[i])
    ensures RecoversTo(L, es[m], v)
  {
    hide RecoversTo, Reboot;
    if m > 0 {
      RebootsKeep(L, es, v, m - 1);
      RebootKeeps(L, es[m-1], es[m], v);
    }
  }

  /** Crash atomicity: cut commit after any number of its block writes (ds), then
      reboot any number of times, each recovery cut anywhere (es). The first recovery
      that completes (rs) leaves every home block old or every home block new,
      according to whether the header had been written, and an empty log. */
  lemma CrashAtomicity(L: Layout, v: Disk, lh: seq<nat>, ds: seq<Disk>, es: seq<Disk>, rs: seq<Disk>)
    requires CommitTrace(L, v, lh, ds) && Stage(L, ds[0], v, lh, 0)
    requires |es| > 0 && es[0] == ds[|ds|-1]
    requires forall m :: 0 < m < |es| ==> Reboot(L, es[m-1], es[m])
    requires RecoverTrace(L, rs) && rs[0] == es[|es|-1]
    requires |rs| == |HeadList(rs[0][L.start])| + 2
    ensures HeadOk(rs[|rs|-1][L.start]) && HeadList(rs[|rs|-1][L.start]) == []
    ensures SameHome(L, rs[|rs|-1], if |ds| <= |lh| + 1 then ds[0] else v)
  {
    hide Word, CommitStep, ReplayStep, Reboot;
    var k := |ds| - 1;
    CommitStages(L, v, lh, ds, k);
    if k <= |lh| { CommitHomes(L, v, lh, ds, k); }
    StageRecovers(L, ds[k], v, lh, k);
    var w := if k <= |lh| then ds[k] else v;
    RebootsKeep(L, es, w, |es| - 1);
    RecoverRun(L, rs, w, |rs| - 1);
  }

  /** Every recoverable disk recovers to something. */
  lemma RedoExists(L: Layout, d: Disk)
    requires Recoverable(L, d)
    ensures exists v :: RecoversTo(L, d, v)
  {
    var lh := HeadList(d[L.start]);
    var v := seq(L.nblocks, b requires 0 <= b < L.nblocks =>
      if exists t :: 0 <= t < |lh| && lh[t] == b then
        var t :| 0 <= t < |lh| && lh[t] == b; d[L.start + 1 + t]
      else d[b]);
    assert RecoversTo(L, d, v);
  }
}
