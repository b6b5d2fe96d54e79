/** The on-disk redo log (kernel/log.c): write_log, write_head, install_trans,
    read_head, commit and recover_from_log, as methods over a disk that keeps the
    list of all states it has been in. A crash is a stop after any single block
    write, so a crash state is an entry of that list. */
module RedoLog {
  import opened Common

  /** A block is its 32-bit words; the header block is decoded from them. */
  type Block = seq<int>
  type Disk = seq<Block>

  /** Where the log lies. `size` is sb.nlog, `logsize` is LOGSIZE and `words` is
      BSIZE / sizeof(int); initlog panics unless the header fits in a block. */
  datatype Geometry = Geometry(nblocks: nat, start: nat, size: nat, words: nat, logsize: nat) {
    predicate Ok() {
      && 1 <= size
      && start + size <= nblocks
      && 1 + logsize < words
    }

    predicate InLog(b: int) {
      start <= b < start + size
    }

    /** Blocks outside the log: the ones file system clients read and write. */
    predicate Home(b: int) {
      0 <= b < nblocks && !InLog(b)
    }
  }

  predicate DiskOk(g: Geometry, d: Disk) {
    && |d| == g.nblocks
    && forall i :: 0 <= i < |d| ==> |d[i]| == g.words
  }

  lemma DistinctPrefix(s: seq<int>, k: nat)
    requires Distinct(s) && k < |s|
    ensures s[k] !in s[..k]
  {
  }

  /** A header the commit path can have produced. */
  predicate HeadOk(g: Geometry, lh: seq<int>) {
    && |lh| <= g.logsize
    && |lh| <= g.size - 1
    && (forall i :: 0 <= i < |lh| ==> g.Home(lh[i]))
    && Distinct(lh)
  }

  /** write_head keeps the words of the prev block beyond the entries it writes. */
  function HeadBlock(lh: seq<int>, prev: Block): (b: Block)
    requires 1 + |lh| <= |prev|
    ensures |b| == |prev|
  {
    [|lh|] + lh + prev[1 + |lh|..]
  }

  /** read_head: the block numbers the header on disk names. */
  function Head(g: Geometry, d: Disk): (lh: seq<int>)
    requires g.Ok() && DiskOk(g, d) && 0 <= d[g.start][0] <= g.logsize
  {
    d[g.start][1..1 + d[g.start][0]]
  }

  predicate LogOk(g: Geometry, d: Disk) {
    && g.Ok()
    && DiskOk(g, d)
    && 0 <= d[g.start][0] <= g.logsize
    && HeadOk(g, Head(g, d))
  }

  /** The search loop of log_write: first position of b, or |lh|. */
  function FirstIndex(lh: seq<int>, b: int): (i: nat)
    ensures i <= |lh|
    ensures i < |lh| ==> lh[i] == b
    ensures b !in lh[..i]
    ensures i == |lh| <==> b !in lh
  {
    if lh == [] then 0
    else if lh[0] == b then 0
    else
      var i := 1 + FirstIndex(lh[1..], b);
      assert lh[..i] == [lh[0]] + lh[1..][..i - 1];
      assert lh == [lh[0]] + lh[1..];
      i
  }

  lemma {:induction false} FirstIndexIs(lh: seq<int>, b: int, i: nat)
    requires i < |lh| && lh[i] == b && b !in lh[..i]
    ensures FirstIndex(lh, b) == i
  {
    if i > 0 {
      assert lh[0] in lh[..i];
      assert lh[..i] == [lh[0]] + lh[1..][..i - 1];
      FirstIndexIs(lh[1..], b, i - 1);
    }
  }

  /** The i-th block of the log, after the header. */
  function LogCopy(g: Geometry, d: Disk, i: nat): Block
    requires g.Ok() && |d| == g.nblocks && i < g.size - 1
  {
    d[g.start + 1 + i]
  }

  /** What a home block holds once recovery is complete: its log copy if the
      header names it, the block itself otherwise. */
  function Recovered(g: Geometry, d: Disk, b: int): Block
    requires LogOk(g, d) && g.Home(b)
  {
    var i := FirstIndex(Head(g, d), b);
    if i < |Head(g, d)| then LogCopy(g, d, i) else d[b]
  }

  /** The durable contents of the disk: all home blocks after recovery. */
  function Contents(g: Geometry, d: Disk): (c: map<int, Block>)
    requires LogOk(g, d)
    ensures forall b :: b in c <==> g.Home(b)
  {
    map b | 0 <= b < g.nblocks && g.Home(b) :: Recovered(g, d, b)
  }

  /** The contents c with the blocks of lh replaced by vals. */
  function Updated(c: map<int, Block>, lh: seq<int>, vals: seq<Block>): map<int, Block>
    requires |lh| == |vals|
  {
    map b | b in c :: var i := FirstIndex(lh, b); if i < |lh| then vals[i] else c[b]
  }

  lemma NothingUpdated(c: map<int, Block>, lh: seq<int>, vals: seq<Block>)
    requires lh == [] && vals == []
    ensures Updated(c, lh, vals) == c
  {
  }

  // ---------------------------------------------------------------------
  // The disk after each write of commit and of recovery

  /** After the first k writes of write_log. */
  function LogWritten(g: Geometry, d: Disk, vals: seq<Block>, k: nat): (r: Disk)
    requires g.Ok() && |d| == g.nblocks && k <= |vals| <= g.size - 1
    ensures |r| == |d|
  {
    if k == 0 then d else LogWritten(g, d, vals, k - 1)[g.start + k := vals[k - 1]]
  }

  function HeadWritten(g: Geometry, d: Disk, lh: seq<int>): (r: Disk)
    requires g.Ok() && DiskOk(g, d) && |lh| <= g.logsize
    ensures DiskOk(g, r)
  {
    d[g.start := HeadBlock(lh, d[g.start])]
  }

  /** After the first k writes of install_trans. */
  function Installed(g: Geometry, d: Disk, lh: seq<int>, k: nat): (r: Disk)
    requires g.Ok() && DiskOk(g, d) && HeadOk(g, lh) && k <= |lh|
    ensures DiskOk(g, r)
  {
    if k == 0 then d
    else
      var p := Installed(g, d, lh, k - 1);
      p[lh[k - 1] := p[g.start + k]]
  }

  /** The states of the disk during write_log. */
  function LogTrace(g: Geometry, d: Disk, vals: seq<Block>, n: nat): (t: seq<Disk>)
    requires g.Ok() && |d| == g.nblocks && n <= |vals| <= g.size - 1
    ensures |t| == n
  {
    if n == 0 then [] else LogTrace(g, d, vals, n - 1) + [LogWritten(g, d, vals, n)]
  }

  /** The states of the disk during install_trans. */
  function InstallTrace(g: Geometry, d: Disk, lh: seq<int>, n: nat): (t: seq<Disk>)
    requires g.Ok() && DiskOk(g, d) && HeadOk(g, lh) && n <= |lh|
    ensures |t| == n
  {
    if n == 0 then [] else InstallTrace(g, d, lh, n - 1) + [Installed(g, d, lh, n)]
  }

  /** The states of the disk during install_trans and the write_head after it. */
  function CleanupTrace(g: Geometry, d: Disk, lh: seq<int>): (t: seq<Disk>)
    requires g.Ok() && DiskOk(g, d) && HeadOk(g, lh)
    ensures |t| == |lh| + 1
  {
    InstallTrace(g, d, lh, |lh|) + [HeadWritten(g, Installed(g, d, lh, |lh|), [])]
  }

  /** The disk just after the commit point. */
  function Committed(g: Geometry, d: Disk, lh: seq<int>, vals: seq<Block>): (r: Disk)
    requires g.Ok() && DiskOk(g, d) && HeadOk(g, lh) && |vals| == |lh|
    requires forall i :: 0 <= i < |vals| ==> |vals[i]| == g.words
    ensures DiskOk(g, r)
  {
    LogWrittenAt(g, d, vals, |lh|);
    HeadWritten(g, LogWritten(g, d, vals, |lh|), lh)
  }

  /** The states of the disk during commit, for a non-empty header. */
  function CommitTrace(g: Geometry, d: Disk, lh: seq<int>, vals: seq<Block>): (t: seq<Disk>)
    requires g.Ok() && DiskOk(g, d) && HeadOk(g, lh) && |vals| == |lh|
    requires forall i :: 0 <= i < |vals| ==> |vals[i]| == g.words
    ensures |t| == 2 * |lh| + 2
  {
    var committed := Committed(g, d, lh, vals);
    LogTrace(g, d, vals, |lh|) + [committed] + CleanupTrace(g, committed, lh)
  }

  // ---------------------------------------------------------------------
  // What one write does to the durable contents

  lemma {:induction false} LogWrittenAt(g: Geometry, d: Disk, vals: seq<Block>, k: nat)
    requires g.Ok() && DiskOk(g, d) && k <= |vals| <= g.size - 1
    requires forall i :: 0 <= i < |vals| ==> |vals[i]| == g.words
    ensures DiskOk(g, LogWritten(g, d, vals, k))
    ensures forall i :: 0 <= i < k ==> LogCopy(g, LogWritten(g, d, vals, k), i) == vals[i]
    ensures forall b :: 0 <= b < g.nblocks && !(g.start < b <= g.start + k)
              ==> LogWritten(g, d, vals, k)[b] == d[b]
  {
    if k > 0 {
      LogWrittenAt(g, d, vals, k - 1);
    }
  }

  lemma {:induction false} InstalledAt(g: Geometry, d: Disk, lh: seq<int>, k: nat)
    requires g.Ok() && DiskOk(g, d) && HeadOk(g, lh) && k <= |lh|
    ensures forall i :: 0 <= i < k ==> Installed(g, d, lh, k)[lh[i]] == LogCopy(g, d, i)
    ensures forall b :: 0 <= b < g.nblocks && b !in lh[..k] ==> Installed(g, d, lh, k)[b] == d[b]
    ensures forall b :: g.InLog(b) ==> Installed(g, d, lh, k)[b] == d[b]
  {
    if k > 0 {
      InstalledAt(g, d, lh, k - 1);
      DistinctPrefix(lh, k - 1);
      hide Distinct;
      assert lh[..k] == lh[..k - 1] + [lh[k - 1]];
      assert g.InLog(g.start + k) && !g.InLog(lh[k - 1]);
    }
  }

  /** struct logheader: the count, then the block numbers. */
  predicate HeaderIs(b: Block, lh: seq<int>) {
    1 + |lh| <= |b| && b[0] == |lh| && forall i :: 0 <= i < |lh| ==> b[1 + i] == lh[i]
  }

  lemma HeadBlockDecodes(g: Geometry, d: Disk, lh: seq<int>)
    requires g.Ok() && DiskOk(g, d) && HeadOk(g, lh)
    ensures LogOk(g, HeadWritten(g, d, lh))
    ensures Head(g, HeadWritten(g, d, lh)) == lh
    ensures HeaderIs(HeadWritten(g, d, lh)[g.start], lh)
  {
    var h := HeadWritten(g, d, lh);
    assert h[g.start][0] == |lh|;
    assert Head(g, h) == lh;
  }

  lemma OtherWriteKeepsHead(g: Geometry, d: Disk, b: int, data: Block)
    requires LogOk(g, d) && 0 <= b < g.nblocks && b != g.start && |data| == g.words
    ensures LogOk(g, d[b := data]) && Head(g, d[b := data]) == Head(g, d)
  {
    assert d[b := data][g.start] == d[g.start];
  }

  lemma Assoc<T>(a: seq<T>, b: seq<T>, c: seq<T>, d: seq<T>)
    ensures a + b + c + d == a + (b + c + d)
  {
  }

  /** Two disks with the same header, log and unlogged blocks mean the same. */
  lemma SameContents(g: Geometry, d: Disk, r: Disk)
    requires LogOk(g, d) && LogOk(g, r) && Head(g, d) == Head(g, r)
    requires forall i :: 0 <= i < |Head(g, d)| ==> LogCopy(g, r, i) == LogCopy(g, d, i)
    requires forall b :: g.Home(b) && b !in Head(g, d) ==> r[b] == d[b]
    ensures Contents(g, r) == Contents(g, d)
  {
    forall b | g.Home(b) ensures Recovered(g, r, b) == Recovered(g, d, b) {
    }
  }

  /** Crash in write_log, before the header is written: nothing has changed. */
  lemma LogWritesInvisible(g: Geometry, d: Disk, vals: seq<Block>, k: nat)
    requires LogOk(g, d) && Head(g, d) == [] && k <= |vals| <= g.size - 1
    requires forall i :: 0 <= i < |vals| ==> |vals[i]| == g.words
    ensures LogOk(g, LogWritten(g, d, vals, k))
    ensures Head(g, LogWritten(g, d, vals, k)) == []
    ensures Contents(g, LogWritten(g, d, vals, k)) == Contents(g, d)
  {
    LogWrittenAt(g, d, vals, k);
    SameContents(g, d, LogWritten(g, d, vals, k));
  }

  /** The write of the header is the commit point. */
  lemma HeadWriteCommits(g: Geometry, d: Disk, lh: seq<int>, vals: seq<Block>)
    requires LogOk(g, d) && Head(g, d) == [] && HeadOk(g, lh) && |vals| == |lh|
    requires forall i :: 0 <= i < |lh| ==> LogCopy(g, d, i) == vals[i]
    ensures LogOk(g, HeadWritten(g, d, lh))
    ensures Contents(g, HeadWritten(g, d, lh)) == Updated(Contents(g, d), lh, vals)
  {
    HeadBlockDecodes(g, d, lh);
    var h := HeadWritten(g, d, lh);
    hide FirstIndex, Distinct, HeadBlock;
    forall b | g.Home(b) ensures Recovered(g, h, b) == Updated(Contents(g, d), lh, vals)[b] {
      var i := FirstIndex(lh, b);
      if i < |lh| {
        assert LogCopy(g, h, i) == LogCopy(g, d, i);
      }
      assert FirstIndex([], b) == 0;
    }
  }

  /** Installing any number of the logged blocks leaves the contents alone. */
  lemma InstallInvisible(g: Geometry, d: Disk, k: nat)
    requires LogOk(g, d) && k <= |Head(g, d)|
    ensures LogOk(g, Installed(g, d, Head(g, d), k))
    ensures Head(g, Installed(g, d, Head(g, d), k)) == Head(g, d)
    ensures Contents(g, Installed(g, d, Head(g, d), k)) == Contents(g, d)
  {
    var r := Installed(g, d, Head(g, d), k);
    InstalledAt(g, d, Head(g, d), k);
    assert g.InLog(g.start) && r[g.start] == d[g.start];
    SameContents(g, d, r);
  }

  /** Clearing the header once every logged block is home changes nothing. */
  lemma ClearInvisible(g: Geometry, d: Disk)
    requires LogOk(g, d)
    requires forall i :: 0 <= i < |Head(g, d)| ==> d[Head(g, d)[i]] == LogCopy(g, d, i)
    ensures LogOk(g, HeadWritten(g, d, []))
    ensures Head(g, HeadWritten(g, d, [])) == []
    ensures Contents(g, HeadWritten(g, d, [])) == Contents(g, d)
  {
    HeadBlockDecodes(g, d, []);
    var h := HeadWritten(g, d, []);
    hide Distinct, HeadBlock;
    forall b | g.Home(b) ensures Recovered(g, h, b) == Recovered(g, d, b) {
      var i := FirstIndex(Head(g, d), b);
      assert h[b] == d[b];
    }
  }

  lemma InstallThenClear(g: Geometry, d: Disk)
    requires LogOk(g, d)
    ensures var r := HeadWritten(g, Installed(g, d, Head(g, d), |Head(g, d)|), []);
            LogOk(g, r) && Head(g, r) == [] && Contents(g, r) == Contents(g, d)
  {
    var lh := Head(g, d);
    InstallInvisible(g, d, |lh|);
    InstalledAt(g, d, lh, |lh|);
    ClearInvisible(g, Installed(g, d, lh, |lh|));
  }

  // ---------------------------------------------------------------------
  // Crash atomicity

  lemma {:induction false} LogTraceAt(g: Geometry, d: Disk, vals: seq<Block>, n: nat, k: nat)
    requires g.Ok() && |d| == g.nblocks && k < n <= |vals| <= g.size - 1
    ensures LogTrace(g, d, vals, n)[k] == LogWritten(g, d, vals, k + 1)
  {
    if k < n - 1 {
      LogTraceAt(g, d, vals, n - 1, k);
    }
  }

  lemma {:induction false} InstallTraceAt(g: Geometry, d: Disk, lh: seq<int>, n: nat, k: nat)
    requires g.Ok() && DiskOk(g, d) && HeadOk(g, lh) && k < n <= |lh|
    ensures InstallTrace(g, d, lh, n)[k] == Installed(g, d, lh, k + 1)
  {
    if k < n - 1 {
      InstallTraceAt(g, d, lh, n - 1, k);
    }
  }

  /** Recovery, and the second half of commit, may be stopped after any write. */
  lemma CleanupCrashSafe(g: Geometry, d: Disk, k: nat)
    requires LogOk(g, d) && k <= |Head(g, d)|
    ensures var t := CleanupTrace(g, d, Head(g, d));
            && LogOk(g, t[k])
            && Contents(g, t[k]) == Contents(g, d)
            && (k == |Head(g, d)| ==> Head(g, t[k]) == [])
  {
    hide Contents, HeadWritten;
    if k < |Head(g, d)| {
      InstallTraceAt(g, d, Head(g, d), |Head(g, d)|, k);
      InstallInvisible(g, d, k + 1);
    } else {
      InstallThenClear(g, d);
    }
  }

  /** The disk after write number k of commit. */
  function Stopped(g: Geometry, d: Disk, lh: seq<int>, vals: seq<Block>, k: nat): Disk
    requires g.Ok() && DiskOk(g, d) && HeadOk(g, lh) && |vals| == |lh| && k < 2 * |lh| + 2
    requires forall i :: 0 <= i < |vals| ==> |vals[i]| == g.words
  {
    if k < |lh| then LogWritten(g, d, vals, k + 1)
    else if k == |lh| then Committed(g, d, lh, vals)
    else CleanupTrace(g, Committed(g, d, lh, vals), lh)[k - |lh| - 1]
  }

  lemma CommitTraceAt(g: Geometry, d: Disk, lh: seq<int>, vals: seq<Block>, k: nat)
    requires g.Ok() && DiskOk(g, d) && HeadOk(g, lh) && |vals| == |lh| && k < 2 * |lh| + 2
    requires forall i :: 0 <= i < |vals| ==> |vals[i]| == g.words
    ensures CommitTrace(g, d, lh, vals)[k] == Stopped(g, d, lh, vals, k)
  {
    hide Committed, CleanupTrace, LogTrace, LogWritten, Distinct;
    if k < |lh| {
      LogTraceAt(g, d, vals, |lh|, k);
    }
  }

  /** The disk just after the header write holds the new contents. */
  lemma CommitPoint(g: Geometry, d: Disk, lh: seq<int>, vals: seq<Block>)
    requires LogOk(g, d) && Head(g, d) == [] && HeadOk(g, lh) && |vals| == |lh|
    requires forall i :: 0 <= i < |vals| ==> |vals[i]| == g.words
    ensures var c := Committed(g, d, lh, vals);
            LogOk(g, c) && Head(g, c) == lh && Contents(g, c) == Updated(Contents(g, d), lh, vals)
  {
    hide Contents, HeadWritten, Updated, LogWritten, Distinct;
    LogWrittenAt(g, d, vals, |lh|);
    LogWritesInvisible(g, d, vals, |lh|);
    HeadWriteCommits(g, LogWritten(g, d, vals, |lh|), lh, vals);
    HeadBlockDecodes(g, LogWritten(g, d, vals, |lh|), lh);
  }

  lemma StoppedEarly(g: Geometry, d: Disk, lh: seq<int>, vals: seq<Block>, k: nat)
    requires LogOk(g, d) && Head(g, d) == [] && HeadOk(g, lh) && |vals| == |lh| && k < |lh|
    requires forall i :: 0 <= i < |vals| ==> |vals[i]| == g.words
    ensures var r := Stopped(g, d, lh, vals, k); LogOk(g, r) && Contents(g, r) == Contents(g, d)
  {
    hide Contents, LogWritten, Distinct;
    LogWritesInvisible(g, d, vals, k + 1);
  }

  lemma CleanupStopped(g: Geometry, c: Disk, lh: seq<int>, j: nat)
    requires LogOk(g, c) && Head(g, c) == lh && j <= |lh|
    ensures var r := CleanupTrace(g, c, lh)[j];
            LogOk(g, r) && Contents(g, r) == Contents(g, c) && (j == |lh| ==> Head(g, r) == [])
  {
    hide Contents, CleanupTrace;
    CleanupCrashSafe(g, c, j);
  }

  lemma StoppedLate(g: Geometry, d: Disk, lh: seq<int>, vals: seq<Block>, k: nat)
    requires LogOk(g, d) && Head(g, d) == [] && HeadOk(g, lh) && |vals| == |lh| && |lh| <= k < 2 * |lh| + 2
    requires forall i :: 0 <= i < |vals| ==> |vals[i]| == g.words
    ensures var r := Stopped(g, d, lh, vals, k);
            && LogOk(g, r) && Contents(g, r) == Updated(Contents(g, d), lh, vals)
            && (k == 2 * |lh| + 1 ==> Head(g, r) == [])
  {
    hide Contents, Updated, Committed, CleanupTrace, HeadOk, DiskOk, Head, LogWritten;
    CommitPoint(g, d, lh, vals);
    if |lh| < k {
      CleanupStopped(g, Committed(g, d, lh, vals), lh, k - |lh| - 1);
    }
  }

  /** Stop commit after any of its writes: the durable contents are those before
      the transaction until the header is written, and those after it from the
      header write (number |lh|) on; never a mixture. */
  lemma CommitCrashAtomic(g: Geometry, d: Disk, lh: seq<int>, vals: seq<Block>, k: nat)
    requires LogOk(g, d) && Head(g, d) == [] && HeadOk(g, lh) && |vals| == |lh|
    requires forall i :: 0 <= i < |vals| ==> |vals[i]| == g.words
    requires k < 2 * |lh| + 2
    ensures var t := CommitTrace(g, d, lh, vals);
            && LogOk(g, t[k])
            && Contents(g, t[k]) == (if k < |lh| then Contents(g, d) else Updated(Contents(g, d), lh, vals))
            && (k == 2 * |lh| + 1 ==> Head(g, t[k]) == [])
  {
    hide Contents, Updated, CommitTrace, Stopped, HeadOk, DiskOk, Head;
    CommitTraceAt(g, d, lh, vals, k);
    if k < |lh| {
      StoppedEarly(g, d, lh, vals, k);
    } else {
      StoppedLate(g, d, lh, vals, k);
    }
  }

  function RecoveryTrace(g: Geometry, d: Disk): seq<Disk>
    requires LogOk(g, d)
  {
    CleanupTrace(g, d, Head(g, d))
  }

  function RecoverFully(g: Geometry, d: Disk): Disk
    requires LogOk(g, d)
  {
    RecoveryTrace(g, d)[|Head(g, d)|]
  }

  /** One reboot per element of `stops`; its recovery is stopped after that many
      writes, or runs to the end if it makes no more than that. */
  ghost predicate RebootsTo(g: Geometry, d: Disk, stops: seq<nat>, r: Disk)
    requires LogOk(g, d)
    decreases stops
  {
    if stops == [] then r == d
    else if stops[0] == 0 then RebootsTo(g, d, stops[1..], r)
    else
      var k := if stops[0] <= |Head(g, d)| then stops[0] - 1 else |Head(g, d)|;
      CleanupCrashSafe(g, d, k);
      RebootsTo(g, RecoveryTrace(g, d)[k], stops[1..], r)
  }

  /** Whatever the sequence of crashes in recovery, a recovery that completes
      puts exactly the durable contents into the home blocks. */
  lemma {:induction false} RepeatedCrashes(g: Geometry, d: Disk, stops: seq<nat>, r: Disk)
    requires LogOk(g, d) && RebootsTo(g, d, stops, r)
    ensures LogOk(g, r) && Contents(g, r) == Contents(g, d)
    ensures LogOk(g, RecoverFully(g, r)) && Head(g, RecoverFully(g, r)) == []
    ensures forall b :: g.Home(b) ==> RecoverFully(g, r)[b] == Contents(g, d)[b]
    decreases stops
  {
    if stops == [] {
      CleanupCrashSafe(g, d, |Head(g, d)|);
      assert forall b :: g.Home(b) ==> Recovered(g, RecoverFully(g, d), b) == Contents(g, d)[b];
    } else if stops[0] == 0 {
      RepeatedCrashes(g, d, stops[1..], r);
    } else {
      var k := if stops[0] <= |Head(g, d)| then stops[0] - 1 else |Head(g, d)|;
      CleanupCrashSafe(g, d, k);
      RepeatedCrashes(g, RecoveryTrace(g, d)[k], stops[1..], r);
    }
  }

  /** Recovering a recovered disk writes nothing new. */
  lemma RecoverIdempotent(g: Geometry, d: Disk)
    requires LogOk(g, d)
    ensures LogOk(g, RecoverFully(g, d))
    ensures RecoverFully(g, RecoverFully(g, d)) == RecoverFully(g, d)
  {
    CleanupCrashSafe(g, d, |Head(g, d)|);
    var r := RecoverFully(g, d);
    assert r[g.start][0] == 0;
    assert HeadBlock([], r[g.start]) == r[g.start];
  }

  // ---------------------------------------------------------------------
  // The code

  /** What bread returns for b: the buffer if there is one, else the disk block. */
  function Buffered(d: Disk, cache: map<int, Block>, b: int): Block
    requires 0 <= b < |d|
  {
    if b in cache then cache[b] else d[b]
  }

  predicate CacheOk(g: Geometry, d: Disk, cache: map<int, Block>)
    requires DiskOk(g, d)
  {
    && (forall b :: b in cache ==> 0 <= b < g.nblocks && |cache[b]| == g.words)
    && (forall b :: b in cache && g.InLog(b) ==> cache[b] == d[b])
  }

  /** The blocks write_log will copy: the buffers of the blocks lh names. */
  function ToLog(g: Geometry, d: Disk, cache: map<int, Block>, lh: seq<int>): (vals: seq<Block>)
    requires DiskOk(g, d) && CacheOk(g, d, cache) && HeadOk(g, lh)
    ensures |vals| == |lh|
    ensures forall i :: 0 <= i < |vals| ==> |vals[i]| == g.words && vals[i] == Buffered(d, cache, lh[i])
  {
    seq(|lh|, i requires 0 <= i < |lh| => Buffered(d, cache, lh[i]))
  }

  /** Buffers of home blocks outside `dirty` agree with the disk. */
  ghost predicate Clean(g: Geometry, d: Disk, cache: map<int, Block>, dirty: seq<int>)
    requires DiskOk(g, d)
  {
    forall b :: b in cache && g.Home(b) && b !in dirty ==> cache[b] == d[b]
  }

  lemma InstallCleans(g: Geometry, d: Disk, cache: map<int, Block>, dirty: seq<int>, data: Block)
    requires DiskOk(g, d) && Clean(g, d, cache, dirty) && dirty != []
    requires 0 <= dirty[0] < g.nblocks && |data| == g.words
    ensures Clean(g, d[dirty[0] := data], cache[dirty[0] := data], dirty[1..])
  {
    assert dirty == [dirty[0]] + dirty[1..];
  }

  lemma BufferOfOther(d: Disk, cache: map<int, Block>, x: int, v: Block, y: int)
    requires 0 <= y < |d| && y != x
    ensures Buffered(d, cache[x := v], y) == Buffered(d, cache, y)
  {
  }

  /** Reading two blocks and writing a log block leaves every home block alone. */
  lemma LogBufferOnly(g: Geometry, d: Disk, cache: map<int, Block>, lh: seq<int>, tail: nat, from: Block)
    requires DiskOk(g, d) && Clean(g, d, cache, lh) && tail < |lh| && 0 <= lh[tail] < |d| && from == Buffered(d, cache, lh[tail])
    requires g.InLog(g.start + tail + 1) && 0 <= g.start + tail + 1 < |d| && |from| == g.words
    ensures var x, y := g.start + tail + 1, lh[tail];
            var d', cache' := d[x := from], cache[x := Buffered(d, cache, x)][y := from][x := from];
            && DiskOk(g, d') && Clean(g, d', cache', lh)
            && forall c :: g.Home(c) ==> Buffered(d', cache', c) == Buffered(d, cache, c)
  {
  }

  /** One turn of the write_head loop. */
  lemma HeadWord(lh: seq<int>, buf: Block, i: nat)
    requires i < |lh| && 1 + |lh| <= |buf|
    ensures ([|lh|] + lh[..i] + buf[1 + i..])[1 + i := lh[i]] == [|lh|] + lh[..i + 1] + buf[2 + i..]
  {
    assert buf[1 + i..] == [buf[1 + i]] + buf[2 + i..];
    assert lh[..i + 1] == lh[..i] + [lh[i]];
  }

  /** commit() does nothing at all when no block was logged. */
  function CommitStates(g: Geometry, d: Disk, cache: map<int, Block>, lh: seq<int>): seq<Disk>
    requires g.Ok() && DiskOk(g, d) && CacheOk(g, d, cache) && HeadOk(g, lh)
  {
    if lh == [] then [] else CommitTrace(g, d, lh, ToLog(g, d, cache, lh))
  }

  class LogDevice {
    const g: Geometry
    var disk: Disk
    /** Buffers in memory; a missing block is read from disk by Bread. */
    var cache: map<int, Block>
    /** The in-memory header: log.lh.n is |lh|. */
    var lh: seq<int>
    /** All states of the disk so far, the current one last. */
    ghost var history: seq<Disk>

    ghost predicate Valid()
      reads this
    {
      && LogOk(g, disk)
      && HeadOk(g, lh)
      && CacheOk(g, disk, cache)
      && |history| > 0
      && history[|history| - 1] == disk
    }

    /** Power on after a crash: memory is lost, the disk is as it was left. */
    constructor (g: Geometry, disk: Disk)
      requires LogOk(g, disk)
      ensures Valid()
      ensures this.g == g && this.disk == disk && cache == map[] && lh == []
      ensures history == [disk]
    {
      this.g, this.disk, cache, lh, history := g, disk, map[], [], [disk];
    }

    method Bread(b: int) returns (data: Block)
      requires Valid() && 0 <= b < g.nblocks
      modifies this`cache
      ensures Valid()
      ensures data == Buffered(old(disk), old(cache), b) && |data| == g.words
      ensures cache == old(cache)[b := data]
    {
      if b !in cache {
        cache := cache[b := disk[b]];
      }
      data := cache[b];
    }

    /** Overwrite the buffer of b and write it to disk. */
    method Bwrite(b: int, data: Block)
      requires Valid() && 0 <= b < g.nblocks && |data| == g.words
      requires LogOk(g, disk[b := data])
      modifies this`cache, this`disk, this`history
      ensures Valid()
      ensures disk == old(disk)[b := data]
      ensures history == old(history) + [disk]
      ensures cache == old(cache)[b := data]
    {
      disk := disk[b := data];
      cache := cache[b := data];
      history := history + [disk];
    }

    method WriteHead()
      requires Valid()
      modifies this`cache, this`disk, this`history
      ensures Valid()
      ensures disk == HeadWritten(g, old(disk), lh) && HeaderIs(disk[g.start], lh)
      ensures history == old(history) + [disk]
      ensures cache == old(cache)[g.start := disk[g.start]]
    {
      HeadBlockDecodes(g, disk, lh);
      assert g.InLog(g.start);
      var buf := Bread(g.start);
      assert buf == disk[g.start];
      var i := 0;
      var hb := buf[0 := |lh|];
      while i < |lh|
        modifies {}
        invariant 0 <= i <= |lh|
        invariant hb == [|lh|] + lh[..i] + buf[1 + i..]
      {
        HeadWord(lh, buf, i);
        hb := hb[1 + i := lh[i]];
        i := i + 1;
      }
      assert hb == HeadBlock(lh, buf) by {
        assert lh[..i] == lh;
      }
      Bwrite(g.start, hb);
    }

    method ReadHead()
      requires Valid()
      modifies this`cache, this`lh
      ensures Valid()
      ensures lh == Head(g, disk) && HeaderIs(disk[g.start], lh)
      ensures cache == old(cache)[g.start := disk[g.start]]
    {
      var buf := Bread(g.start);
      var n := buf[0];
      var read := [];
      while |read| < n
        invariant |read| <= n
        invariant read == buf[1..1 + |read|]
      {
        read := read + [buf[1 + |read|]];
      }
      lh := read;
    }

    /** One turn of the write_log loop. */
    method CopyToLog(tail: nat)
      requires Valid() && Head(g, disk) == [] && tail < |lh| && Clean(g, disk, cache, lh)
      modifies this`cache, this`disk, this`history
      ensures Valid() && Head(g, disk) == [] && Clean(g, disk, cache, lh)
      ensures disk == old(disk)[g.start + tail + 1 := Buffered(old(disk), old(cache), lh[tail])]
      ensures history == old(history) + [disk]
      ensures forall c :: g.Home(c) ==> Buffered(disk, cache, c) == Buffered(old(disk), old(cache), c)
    {
      hide FirstIndex, Distinct, Clean, HeadBlock, Buffered;
      assert g.InLog(g.start + tail + 1);
      ghost var was := cache;
      var to := Bread(g.start + tail + 1);
      BufferOfOther(disk, was, g.start + tail + 1, to, lh[tail]);
      var from := Bread(lh[tail]);
      OtherWriteKeepsHead(g, disk, g.start + tail + 1, from);
      LogBufferOnly(g, disk, was, lh, tail, from);
      Bwrite(g.start + tail + 1, from);
    }

    method WriteLog()
      requires Valid() && Head(g, disk) == [] && Clean(g, disk, cache, lh)
      modifies this`cache, this`disk, this`history
      ensures Valid() && Clean(g, disk, cache, lh)
      ensures disk == LogWritten(g, old(disk), ToLog(g, old(disk), old(cache), old(lh)), |lh|)
      ensures history == old(history) + LogTrace(g, old(disk), ToLog(g, old(disk), old(cache), old(lh)), |lh|)
    {
      hide Clean, FirstIndex, Distinct, HeadBlock, Head, CacheOk;
      ghost var d, vals := disk, ToLog(g, disk, cache, lh);
      var tail := 0;
      while tail < |lh|
        invariant 0 <= tail <= |lh| && Valid() && Head(g, disk) == [] && Clean(g, disk, cache, lh)
        invariant disk == LogWritten(g, d, vals, tail)
        invariant history == old(history) + LogTrace(g, d, vals, tail)
        invariant forall i :: 0 <= i < |lh| ==> Buffered(disk, cache, lh[i]) == vals[i]
      {
        CopyToLog(tail);
        tail := tail + 1;
      }
    }

    /** One turn of the install_trans loop. */
    method CopyHome(tail: nat)
      requires Valid() && Head(g, disk) == lh && tail < |lh| && Clean(g, disk, cache, lh[tail..])
      modifies this`cache, this`disk, this`history
      ensures Valid() && Head(g, disk) == lh && Clean(g, disk, cache, lh[tail + 1..])
      ensures disk == old(disk)[lh[tail] := old(disk)[g.start + tail + 1]]
      ensures history == old(history) + [disk]
    {
      hide FirstIndex, Distinct;
      assert g.InLog(g.start + tail + 1);
      var lbuf := Bread(g.start + tail + 1);
      assert lbuf == disk[g.start + tail + 1];
      var dbuf := Bread(lh[tail]);
      OtherWriteKeepsHead(g, disk, lh[tail], lbuf);
      InstallCleans(g, disk, cache, lh[tail..], lbuf);
      assert lh[tail..][1..] == lh[tail + 1..];
      Bwrite(lh[tail], lbuf);
    }

    method InstallTrans()
      requires Valid() && Head(g, disk) == lh && Clean(g, disk, cache, lh)
      modifies this`cache, this`disk, this`history
      ensures Valid() && Head(g, disk) == lh && Clean(g, disk, cache, [])
      ensures disk == Installed(g, old(disk), lh, |lh|)
      ensures history == old(history) + InstallTrace(g, old(disk), lh, |lh|)
    {
      hide Clean, CacheOk, FirstIndex, Distinct;
      ghost var d := disk;
      var tail := 0;
      assert lh[tail..] == lh;
      while tail < |lh|
        invariant 0 <= tail <= |lh| && Valid() && Head(g, disk) == lh && Clean(g, disk, cache, lh[tail..])
        invariant disk == Installed(g, d, lh, tail)
        invariant history == old(history) + InstallTrace(g, d, lh, tail)
      {
        CopyHome(tail);
        tail := tail + 1;
      }
      assert lh[tail..] == [];
    }

    /** The tail that commit and recover_from_log share: install, then erase. */
    method InstallAndErase()
      requires Valid() && Head(g, disk) == lh && Clean(g, disk, cache, lh)
      modifies this`cache, this`disk, this`history, this`lh
      ensures Valid() && lh == [] && Clean(g, disk, cache, [])
      ensures history == old(history) + CleanupTrace(g, old(disk), old(lh))
    {
      hide FirstIndex, Distinct, HeadBlock, Buffered;
      InstallTrans();
      lh := [];
      WriteHead();
    }

    /** The first half of commit, up to and including the commit point. */
    method WriteLogAndHead()
      requires Valid() && Head(g, disk) == [] && Clean(g, disk, cache, lh)
      modifies this`cache, this`disk, this`history
      ensures Valid() && Head(g, disk) == lh && Clean(g, disk, cache, lh)
      ensures disk == Committed(g, old(disk), lh, ToLog(g, old(disk), old(cache), lh))
      ensures history == old(history) + LogTrace(g, old(disk), ToLog(g, old(disk), old(cache), lh), |lh|) + [disk]
    {
      hide FirstIndex, Distinct, HeadBlock, Buffered;
      WriteLog();
      HeadBlockDecodes(g, disk, lh);
      WriteHead();
    }

    /** commit(): the disk goes through exactly the states of CommitTrace, and the
        log is empty again at the end. */
    method Commit()
      requires Valid() && Head(g, disk) == [] && Clean(g, disk, cache, lh)
      modifies this`cache, this`disk, this`history, this`lh
      ensures Valid() && Head(g, disk) == [] && lh == [] && Clean(g, disk, cache, [])
      ensures history == old(history) + CommitStates(g, old(disk), old(cache), old(lh))
      ensures Contents(g, disk) == Updated(old(Contents(g, disk)), old(lh), ToLog(g, old(disk), old(cache), old(lh)))
    {
      hide CacheOk, Clean, FirstIndex, Contents, Updated, CleanupTrace, LogTrace, Distinct, HeadBlock, LogWritten;
      ghost var d, vals, blocks := disk, ToLog(g, disk, cache, lh), lh;
      if |lh| > 0 {
        WriteLogAndHead();
        ghost var committed := disk;
        InstallAndErase();
        Assoc(old(history), LogTrace(g, d, vals, |blocks|), [committed], CleanupTrace(g, committed, blocks));
        CommitCrashAtomic(g, d, blocks, vals, 2 * |blocks| + 1);
      } else {
        NothingUpdated(Contents(g, d), lh, vals);
      }
    }

    /** recover_from_log(), run on an empty cache at boot. */
    method RecoverFromLog()
      requires Valid() && cache == map[]
      modifies this`cache, this`disk, this`history, this`lh
      ensures Valid() && Head(g, disk) == [] && lh == [] && Clean(g, disk, cache, [])
      ensures history == old(history) + RecoveryTrace(g, old(disk))
      ensures disk == RecoverFully(g, old(disk))
      ensures forall b :: g.Home(b) ==> disk[b] == old(Contents(g, disk))[b]
    {
      hide FirstIndex, Distinct, CacheOk, HeadBlock;
      ghost var d := disk;
      CleanupCrashSafe(g, d, |Head(g, d)|);
      ReadHead();
      InstallAndErase();
      assert forall b :: g.Home(b) ==> Recovered(g, disk, b) == Contents(g, d)[b];
    }
  }
}
