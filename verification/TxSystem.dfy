/** Buffer cache and log together (kernel/bio.c, kernel/log.c) as a state machine:
    any number of processes run file system operations between begin_op and end_op,
    read and modify sleep-locked buffers, and the machine may crash between any two
    block writes, in commit or in recovery. The machine is shown to refine a disk
    that commits the operations of a group atomically. */
module TxSystem {
  import opened Common
  import opened RedoLog

  /** struct buf, for blocks outside the log. `users` are the processes that hold a
      reference from bget; `touched` says that the lock holder has changed the data of
      a block that is not (yet) in the log header. */
  datatype Buf = Buf(data: Block, valid: bool, refcnt: int, users: set<Proc>, locker: Holder, touched: bool)

  /** Where the thread that runs commit, or recovery, is. */
  datatype Phase =
    | Running               // log.committing == 0
    | WriteLog(tail: nat)   // in write_log
    | Install(tail: nat)    // in install_trans(0)
    | Finish                // commit has returned, log.committing still 1
    | Recover(tail: nat)    // in install_trans(1), at boot

  /** `ops` maps each process inside an operation to the number of blocks it has
      added to the header; `outstanding` is the kernel's own count of them. */
  datatype State = State(
    disk: Disk, cache: map<int, Buf>, lh: seq<int>,
    outstanding: nat, ops: map<Proc, nat>, phase: Phase)

  /** maxop is MAXOPBLOCKS. */
  datatype Params = Params(g: Geometry, maxop: nat)

  datatype Event =
    | BeginOp(p: Proc)
    | EndOp(p: Proc)
    | Bget(p: Proc, b: int)
    | Lock(p: Proc, b: int)
    | Fill(p: Proc, b: int)
    | Modify(p: Proc, b: int, data: Block)
    | LogWrite(p: Proc, b: int)
    | Brelse(p: Proc, b: int)
    | Evict(b: int)
    | CopyToLog
    | WriteHead
    | CopyHome
    | EraseHead
    | CommitDone
    | Crash
    | RecoverHome
    | RecoverErase

  predicate Holds(s: State, p: Proc, b: int) {
    b in s.cache && s.cache[b].locker == HeldBy(p)
  }

  predicate Unlocked(s: State, b: int) {
    b in s.cache && s.cache[b].locker == Free
  }

  /** The test that makes log_write panic. */
  predicate LogWritePanics(c: Params, s: State) {
    || |s.lh| >= c.g.logsize
    || |s.lh| >= c.g.size - 1
    || s.outstanding < 1
  }

  function SetBuf(s: State, b: int, f: Buf): State {
    s.(cache := s.cache[b := f])
  }

  // ---------------------------------------------------------------------
  // Steps

  predicate BeginOpStep(c: Params, s: State, p: Proc, t: State) {
    && s.phase.Running?
    && |s.lh| + (s.outstanding + 1) * c.maxop <= c.g.logsize
    && p !in s.ops
    && t == s.(outstanding := s.outstanding + 1, ops := s.ops[p := 0])
  }

  /** Callers log what they changed before they end the operation. */
  predicate EndOpStep(s: State, p: Proc, t: State) {
    && s.phase.Running?
    && p in s.ops
    && (forall b :: b in s.cache && s.cache[b].locker == HeldBy(p) ==> !s.cache[b].touched)
    && s.outstanding > 0
    && t == s.(outstanding := s.outstanding - 1,
               ops := s.ops - {p},
               phase := if s.outstanding > 1 then Running else if s.lh == [] then Finish else WriteLog(0))
  }

  predicate BgetStep(c: Params, s: State, p: Proc, b: int, t: State) {
    && !s.phase.Recover?
    && c.g.Home(b)
    && if b in s.cache
       then && p !in s.cache[b].users
            && t == SetBuf(s, b, s.cache[b].(refcnt := s.cache[b].refcnt + 1, users := s.cache[b].users + {p}))
       else t == SetBuf(s, b, Buf([], false, 1, {p}, Free, false))
  }

  predicate LockStep(s: State, p: Proc, b: int, t: State) {
    && Unlocked(s, b)
    && p in s.cache[b].users
    && t == SetBuf(s, b, s.cache[b].(locker := HeldBy(p)))
  }

  /** The disk read in bread. */
  predicate FillStep(c: Params, s: State, p: Proc, b: int, t: State) {
    && Holds(s, p, b)
    && !s.cache[b].valid
    && 0 <= b < |s.disk|
    && t == SetBuf(s, b, s.cache[b].(data := s.disk[b], valid := true))
  }

  predicate ModifyStep(c: Params, s: State, p: Proc, b: int, data: Block, t: State) {
    && Holds(s, p, b)
    && s.cache[b].valid
    && p in s.ops
    && |data| == c.g.words
    && t == SetBuf(s, b, s.cache[b].(data := data, touched := b !in s.lh))
  }

  /** An operation that adds a block to the header has budget left for it. Where log_write
      panics (LogWritePanics) the process goes no further. */
  predicate LogWriteStep(c: Params, s: State, p: Proc, b: int, t: State) {
    && Holds(s, p, b)
    && s.cache[b].valid
    && p in s.ops
    && !LogWritePanics(c, s)
    && if b in s.lh
       then t == s
       else && s.ops[p] < c.maxop
            && t == SetBuf(s, b, s.cache[b].(refcnt := s.cache[b].refcnt + 1, touched := false))
                    .(lh := s.lh + [b], ops := s.ops[p := s.ops[p] + 1])
  }

  predicate BrelseStep(s: State, p: Proc, b: int, t: State) {
    && Holds(s, p, b)
    && !s.cache[b].touched
    && t == SetBuf(s, b, s.cache[b].(refcnt := s.cache[b].refcnt - 1,
                                     users := s.cache[b].users - {p}, locker := Free))
  }

  /** bget may recycle a buffer exactly when nobody refers to it. */
  predicate EvictStep(s: State, b: int, t: State) {
    && b in s.cache
    && s.cache[b].refcnt == 0
    && t == s.(cache := s.cache - {b})
  }

  predicate CopyToLogStep(c: Params, s: State, t: State) {
    && s.phase.WriteLog?
    && s.phase.tail < |s.lh|
    && Unlocked(s, s.lh[s.phase.tail])
    && 0 <= c.g.start + 1 + s.phase.tail < |s.disk|
    && t == s.(disk := s.disk[c.g.start + 1 + s.phase.tail := s.cache[s.lh[s.phase.tail]].data],
               phase := WriteLog(s.phase.tail + 1))
  }

  predicate WriteHeadStep(c: Params, s: State, t: State) {
    && s.phase == WriteLog(|s.lh|)
    && c.g.Ok() && DiskOk(c.g, s.disk) && |s.lh| <= c.g.logsize
    && t == s.(disk := HeadWritten(c.g, s.disk, s.lh), phase := Install(0))
  }

  /** One turn of install_trans(0): copy home, write, unpin. */
  predicate CopyHomeStep(c: Params, s: State, t: State) {
    && s.phase.Install?
    && s.phase.tail < |s.lh|
    && Unlocked(s, s.lh[s.phase.tail])
    && 0 <= s.lh[s.phase.tail] < |s.disk|
    && 0 <= c.g.start + 1 + s.phase.tail < |s.disk|
    && var b := s.lh[s.phase.tail];
       var data := s.disk[c.g.start + 1 + s.phase.tail];
       t == SetBuf(s, b, s.cache[b].(data := data, refcnt := s.cache[b].refcnt - 1))
            .(disk := s.disk[b := data], phase := Install(s.phase.tail + 1))
  }

  predicate EraseHeadStep(c: Params, s: State, t: State) {
    && s.phase == Install(|s.lh|)
    && c.g.Ok() && DiskOk(c.g, s.disk)
    && t == s.(disk := HeadWritten(c.g, s.disk, []), lh := [], phase := Finish)
  }

  predicate CommitDoneStep(s: State, t: State) {
    s.phase.Finish? && t == s.(phase := Running)
  }

  /** Power failure and reboot: memory is gone, recovery has read the header. */
  predicate CrashStep(c: Params, s: State, t: State) {
    && LogOk(c.g, s.disk)
    && t == State(s.disk, map[], Head(c.g, s.disk), 0, map[], Recover(0))
  }

  predicate RecoverHomeStep(c: Params, s: State, t: State) {
    && s.phase.Recover?
    && s.phase.tail < |s.lh|
    && 0 <= s.lh[s.phase.tail] < |s.disk|
    && 0 <= c.g.start + 1 + s.phase.tail < |s.disk|
    && t == s.(disk := s.disk[s.lh[s.phase.tail] := s.disk[c.g.start + 1 + s.phase.tail]],
               phase := Recover(s.phase.tail + 1))
  }

  predicate RecoverEraseStep(c: Params, s: State, t: State) {
    && s.phase == Recover(|s.lh|)
    && c.g.Ok() && DiskOk(c.g, s.disk)
    && t == s.(disk := HeadWritten(c.g, s.disk, []), lh := [], phase := Running)
  }

  predicate Step(c: Params, s: State, e: Event, t: State) {
    match e
    case BeginOp(p) => BeginOpStep(c, s, p, t)
    case EndOp(p) => EndOpStep(s, p, t)
    case Bget(p, b) => BgetStep(c, s, p, b, t)
    case Lock(p, b) => LockStep(s, p, b, t)
    case Fill(p, b) => FillStep(c, s, p, b, t)
    case Modify(p, b, data) => ModifyStep(c, s, p, b, data, t)
    case LogWrite(p, b) => LogWriteStep(c, s, p, b, t)
    case Brelse(p, b) => BrelseStep(s, p, b, t)
    case Evict(b) => EvictStep(s, b, t)
    case CopyToLog => CopyToLogStep(c, s, t)
    case WriteHead => WriteHeadStep(c, s, t)
    case CopyHome => CopyHomeStep(c, s, t)
    case EraseHead => EraseHeadStep(c, s, t)
    case CommitDone => CommitDoneStep(s, t)
    case Crash => CrashStep(c, s, t)
    case RecoverHome => RecoverHomeStep(c, s, t)
    case RecoverErase => RecoverEraseStep(c, s, t)
  }

  /** Any disk with a sane log, about to be recovered. */
  predicate Init(c: Params, s: State) {
    LogOk(c.g, s.disk) && s == State(s.disk, map[], Head(c.g, s.disk), 0, map[], Recover(0))
  }

  // ---------------------------------------------------------------------
  // The abstract machine

  /** A disk with atomic group commit: `current` is what operations see, `committed`
      is what a crash leaves. */
  datatype TxDisk = TxDisk(committed: map<int, Block>, current: map<int, Block>, active: set<Proc>)

  /** What each event may do to the abstract disk. Only WriteHead changes the durable
      contents, only when no operation is active, and then all at once. */
  predicate TxStep(a: TxDisk, e: Event, a': TxDisk) {
    match e
    case BeginOp(p) => p !in a.active && a' == a.(active := a.active + {p})
    case EndOp(p) => p in a.active && a' == a.(active := a.active - {p})
    case Modify(p, b, data) => p in a.active && b in a.current && a' == a.(current := a.current[b := data])
    case WriteHead => a.active == {} && a' == a.(committed := a.current)
    case Crash => a' == TxDisk(a.committed, a.committed, {})
    case _ => a' == a
  }

  function Seen(cache: map<int, Buf>, b: int, durable: Block): Block {
    if b in cache && cache[b].valid then cache[b].data else durable
  }

  function Current(durable: map<int, Block>, cache: map<int, Buf>): map<int, Block> {
    map b | b in durable :: Seen(cache, b, durable[b])
  }

  /** What a crash now and a completed recovery would leave. */
  function Durable(c: Params, s: State): map<int, Block> {
    if LogOk(c.g, s.disk) then Contents(c.g, s.disk) else map[]
  }

  function View(c: Params, s: State): TxDisk {
    TxDisk(Durable(c, s), Current(Durable(c, s), s.cache), s.ops.Keys)
  }

  // ---------------------------------------------------------------------
  // Invariant

  /** bpin by log_write, undone block by block in install_trans(0). */
  predicate Pinned(s: State, b: int) {
    && b in s.lh
    && !s.phase.Recover?
    && (s.phase.Install? ==> s.phase.tail <= FirstIndex(s.lh, b))
  }

  predicate BufOk(c: Params, s: State, b: int)
    requires LogOk(c.g, s.disk) && b in s.cache
  {
    var f := s.cache[b];
    && c.g.Home(b)
    && f.refcnt == |f.users| + (if Pinned(s, b) then 1 else 0)
    && (f.locker.HeldBy? ==> f.locker.p in f.users)
    && (f.valid ==> |f.data| == c.g.words)
    && (f.touched ==> f.valid && f.locker.HeldBy? && f.locker.p in s.ops && b !in s.lh)
    && (f.valid && !f.touched && b !in s.lh ==> f.data == s.disk[b])
  }

  /** What is known of the i-th block of the header. */
  predicate EntryOk(c: Params, s: State, i: nat)
    requires LogOk(c.g, s.disk) && HeadOk(c.g, s.lh) && i < |s.lh|
  {
    var b := s.lh[i];
    match s.phase
    case Running => b in s.cache && s.cache[b].valid
    case WriteLog(tail) =>
      && b in s.cache && s.cache[b].valid
      && (i < tail ==> LogCopy(c.g, s.disk, i) == s.cache[b].data)
    case Install(tail) =>
      && (tail <= i ==> b in s.cache && s.cache[b].valid)
      && (i < tail ==> s.disk[b] == LogCopy(c.g, s.disk, i))
      && (b in s.cache && s.cache[b].valid ==> s.cache[b].data == LogCopy(c.g, s.disk, i))
    case Finish => false
    case Recover(tail) => i < tail ==> s.disk[b] == LogCopy(c.g, s.disk, i)
  }

  predicate PhaseOk(c: Params, s: State)
    requires LogOk(c.g, s.disk)
  {
    && s.outstanding == |s.ops|
    && match s.phase
       case Running => Head(c.g, s.disk) == [] && (s.outstanding == 0 ==> s.lh == [])
       case WriteLog(tail) => Head(c.g, s.disk) == [] && tail <= |s.lh| && s.ops == map[]
       case Install(tail) => Head(c.g, s.disk) == s.lh && tail <= |s.lh| && s.ops == map[]
       case Finish => Head(c.g, s.disk) == [] && s.lh == [] && s.ops == map[]
       case Recover(tail) => Head(c.g, s.disk) == s.lh && tail <= |s.lh| && s.ops == map[] && s.cache == map[]
  }

  ghost predicate Inv(c: Params, s: State) {
    && LogOk(c.g, s.disk)
    && HeadOk(c.g, s.lh)
    && PhaseOk(c, s)
    && (forall b :: b in s.cache ==> BufOk(c, s, b))
    && (forall i :: 0 <= i < |s.lh| ==> EntryOk(c, s, i))
  }

  // ---------------------------------------------------------------------
  // Each step keeps the invariant and is a step of the abstract machine

  lemma ContentsOutsideHeader(c: Params, s: State, b: int)
    requires Inv(c, s) && c.g.Home(b) && b !in s.lh
    ensures Contents(c.g, s.disk)[b] == s.disk[b]
  {
  }

  lemma ContentsOfEntry(c: Params, s: State, b: int)
    requires Inv(c, s) && b in s.lh && (s.phase.Install? || s.phase.Recover?)
    ensures Contents(c.g, s.disk)[b] == LogCopy(c.g, s.disk, FirstIndex(s.lh, b))
  {
  }

  /** A step that changes one buffer only. */
  lemma BufStep(c: Params, s: State, b: int, f: Buf)
    requires Inv(c, s) && !s.phase.Recover?
    requires BufOk(c, SetBuf(s, b, f), b)
    requires b in s.lh ==> EntryOk(c, SetBuf(s, b, f), FirstIndex(s.lh, b))
    ensures Inv(c, SetBuf(s, b, f))
  {
    var t := SetBuf(s, b, f);
    forall b' | b' in t.cache ensures BufOk(c, t, b') {
      assert b' != b ==> BufOk(c, s, b');
    }
    forall i | 0 <= i < |t.lh| ensures EntryOk(c, t, i) {
      assert EntryOk(c, s, i);
      if t.lh[i] == b {
        IndexOfEntry(s.lh, i);
      }
    }
  }

  lemma IndexOfEntry(lh: seq<int>, i: nat)
    requires Distinct(lh) && i < |lh|
    ensures FirstIndex(lh, lh[i]) == i
  {
    DistinctPrefix(lh, i);
    FirstIndexIs(lh, lh[i], i);
  }

  lemma SameCurrent(durable: map<int, Block>, cache: map<int, Buf>, cache': map<int, Buf>)
    requires forall b :: b in durable ==> Seen(cache, b, durable[b]) == Seen(cache', b, durable[b])
    ensures Current(durable, cache) == Current(durable, cache')
  {
  }

  lemma CurrentOfEmptyCache(durable: map<int, Block>)
    ensures Current(durable, map[]) == durable
  {
  }

  lemma SameCurrentBut(durable: map<int, Block>, cache: map<int, Buf>, b: int, f: Buf)
    requires b in durable ==> Seen(cache, b, durable[b]) == Seen(cache[b := f], b, durable[b])
    ensures Current(durable, cache) == Current(durable, cache[b := f])
  {
    SameCurrent(durable, cache, cache[b := f]);
  }

  lemma BgetRefines(c: Params, s: State, p: Proc, b: int, t: State)
    requires Inv(c, s) && BgetStep(c, s, p, b, t)
    ensures Inv(c, t)
    ensures TxStep(View(c, s), Bget(p, b), View(c, t))
  {
    if b in s.cache {
      assert BufOk(c, s, b);
    }
    if b in s.lh {
      assert EntryOk(c, s, FirstIndex(s.lh, b));
    }
    BufStep(c, s, b, t.cache[b]);
    SameCurrentBut(Durable(c, s), s.cache, b, t.cache[b]);
  }

  lemma LockRefines(c: Params, s: State, p: Proc, b: int, t: State)
    requires Inv(c, s) && LockStep(s, p, b, t)
    ensures Inv(c, t)
    ensures TxStep(View(c, s), Lock(p, b), View(c, t))
  {
    assert BufOk(c, s, b);
    if b in s.lh {
      assert EntryOk(c, s, FirstIndex(s.lh, b));
    }
    BufStep(c, s, b, t.cache[b]);
    SameCurrentBut(Durable(c, s), s.cache, b, t.cache[b]);
  }

  lemma BrelseRefines(c: Params, s: State, p: Proc, b: int, t: State)
    requires Inv(c, s) && BrelseStep(s, p, b, t)
    ensures Inv(c, t)
    ensures TxStep(View(c, s), Brelse(p, b), View(c, t))
  {
    assert BufOk(c, s, b);
    if b in s.lh {
      assert EntryOk(c, s, FirstIndex(s.lh, b));
    }
    BufStep(c, s, b, t.cache[b]);
    SameCurrentBut(Durable(c, s), s.cache, b, t.cache[b]);
  }

  /** A missing or invalid buffer's block is up to date on disk. */
  lemma UncachedIsHome(c: Params, s: State, b: int)
    requires Inv(c, s) && c.g.Home(b) && !s.phase.Recover?
    requires b !in s.cache || !s.cache[b].valid
    ensures s.disk[b] == Contents(c.g, s.disk)[b]
    ensures b in s.lh ==> s.phase.Install? && FirstIndex(s.lh, b) < s.phase.tail
  {
    if b in s.lh {
      assert EntryOk(c, s, FirstIndex(s.lh, b));
      ContentsOfEntry(c, s, b);
    } else {
      ContentsOutsideHeader(c, s, b);
    }
  }

  lemma FillRefines(c: Params, s: State, p: Proc, b: int, t: State)
    requires Inv(c, s) && FillStep(c, s, p, b, t)
    ensures Inv(c, t)
    ensures TxStep(View(c, s), Fill(p, b), View(c, t))
  {
    assert BufOk(c, s, b);
    UncachedIsHome(c, s, b);
    if b in s.lh {
      assert EntryOk(c, s, FirstIndex(s.lh, b));
    }
    BufStep(c, s, b, t.cache[b]);
    SameCurrentBut(Durable(c, s), s.cache, b, t.cache[b]);
  }

  lemma EvictInv(c: Params, s: State, b: int, t: State)
    requires Inv(c, s) && EvictStep(s, b, t)
    ensures Inv(c, t)
  {
    assert BufOk(c, s, b);
    forall b' | b' in t.cache ensures BufOk(c, t, b') {
      assert BufOk(c, s, b');
    }
    forall i | 0 <= i < |t.lh| ensures EntryOk(c, t, i) {
      assert EntryOk(c, s, i);
      IndexOfEntry(s.lh, i);
    }
  }

  /** An unreferenced buffer holds what the disk holds. */
  lemma EvictedIsHome(c: Params, s: State, b: int)
    requires Inv(c, s) && b in s.cache && s.cache[b].refcnt == 0
    ensures Seen(s.cache, b, Durable(c, s)[b]) == Durable(c, s)[b]
  {
    assert BufOk(c, s, b);
    if b in s.lh {
      assert EntryOk(c, s, FirstIndex(s.lh, b));
      ContentsOfEntry(c, s, b);
    } else {
      ContentsOutsideHeader(c, s, b);
    }
  }

  lemma EvictRefines(c: Params, s: State, b: int, t: State)
    requires Inv(c, s) && EvictStep(s, b, t)
    ensures Inv(c, t)
    ensures TxStep(View(c, s), Evict(b), View(c, t))
  {
    hide Inv, Contents, LogOk;
    EvictInv(c, s, b, t);
    EvictedIsHome(c, s, b);
    SameCurrent(Durable(c, s), s.cache, t.cache);
  }

  lemma ModifyRefines(c: Params, s: State, p: Proc, b: int, data: Block, t: State)
    requires Inv(c, s) && ModifyStep(c, s, p, b, data, t)
    ensures Inv(c, t)
    ensures TxStep(View(c, s), Modify(p, b, data), View(c, t))
  {
    hide LogOk, Contents;
    assert BufOk(c, s, b);
    if b in s.lh {
      assert EntryOk(c, s, FirstIndex(s.lh, b));
    }
    BufStep(c, s, b, t.cache[b]);
  }

  lemma SameDurable(c: Params, s: State, t: State)
    requires t.disk == s.disk
    ensures Durable(c, t) == Durable(c, s)
  {
  }

  lemma OneMore(c: Params, s: State, p: Proc, t: State)
    requires BeginOpStep(c, s, p, t)
    ensures s.phase.Running? && p !in s.ops && t == s.(outstanding := s.outstanding + 1, ops := s.ops[p := 0])
  {
  }

  lemma BeginOpInv(c: Params, s: State, p: Proc, t: State)
    requires Inv(c, s) && BeginOpStep(c, s, p, t)
    ensures Inv(c, t)
  {
    hide BeginOpStep, LogOk, FirstIndex, HeadOk, Head, LogCopy;
    OneMore(c, s, p, t);
    assert t.ops.Keys == s.ops.Keys + {p};
    assert |t.ops| == |s.ops| + 1;
    forall b | b in t.cache ensures BufOk(c, t, b) {
      assert BufOk(c, s, b);
    }
    forall i | 0 <= i < |t.lh| ensures EntryOk(c, t, i) {
      assert EntryOk(c, s, i);
    }
  }

  lemma BeginOpRefines(c: Params, s: State, p: Proc, t: State)
    requires Inv(c, s) && BeginOpStep(c, s, p, t)
    ensures Inv(c, t)
    ensures TxStep(View(c, s), BeginOp(p), View(c, t))
  {
    hide BeginOpStep, Inv, Durable, Current;
    BeginOpInv(c, s, p, t);
    OneMore(c, s, p, t);
    SameDurable(c, s, t);
    assert t.ops.Keys == s.ops.Keys + {p};
  }

  lemma EndOpRefines(c: Params, s: State, p: Proc, t: State)
    requires Inv(c, s) && EndOpStep(s, p, t)
    ensures Inv(c, t)
    ensures TxStep(View(c, s), EndOp(p), View(c, t))
  {
    assert t.ops.Keys == s.ops.Keys - {p};
    assert |t.ops| == |s.ops| - 1;
    forall b | b in t.cache ensures BufOk(c, t, b) {
      assert BufOk(c, s, b);
    }
    forall i | 0 <= i < |t.lh| ensures EntryOk(c, t, i) {
      assert EntryOk(c, s, i);
    }
  }

  lemma FirstIndexAppend(lh: seq<int>, b: int, x: int)
    requires x !in lh
    ensures b in lh ==> FirstIndex(lh + [x], b) == FirstIndex(lh, b)
    ensures b in lh + [x] <==> b in lh || b == x
  {
    if b in lh {
      var i := FirstIndex(lh, b);
      assert (lh + [x])[..i] == lh[..i];
      FirstIndexIs(lh + [x], b, i);
    }
  }

  lemma LogWriteInv(c: Params, s: State, p: Proc, b: int, t: State)
    requires Inv(c, s) && LogWriteStep(c, s, p, b, t) && b !in s.lh
    ensures Inv(c, t)
  {
    hide LogOk, FirstIndex;
    assert BufOk(c, s, b);
    assert t.lh[..|t.lh| - 1] == s.lh;
    forall b' | b' in t.cache ensures BufOk(c, t, b') {
      assert BufOk(c, s, b');
      FirstIndexAppend(s.lh, b', b);
    }
    forall i | 0 <= i < |t.lh| ensures EntryOk(c, t, i) {
      assert i < |s.lh| ==> EntryOk(c, s, i);
    }
    assert t.ops.Keys == s.ops.Keys;
  }

  lemma LogWriteRefines(c: Params, s: State, p: Proc, b: int, t: State)
    requires Inv(c, s) && LogWriteStep(c, s, p, b, t)
    ensures Inv(c, t)
    ensures TxStep(View(c, s), LogWrite(p, b), View(c, t))
  {
    hide Inv, Contents, LogOk;
    if b !in s.lh {
      LogWriteInv(c, s, p, b, t);
      assert t.ops.Keys == s.ops.Keys;
      SameCurrent(Durable(c, s), s.cache, t.cache);
    }
  }

  lemma CopyToLogRefines(c: Params, s: State, t: State)
    requires Inv(c, s) && CopyToLogStep(c, s, t)
    ensures Inv(c, t)
    ensures TxStep(View(c, s), CopyToLog, View(c, t))
  {
    hide Contents;
    var b := s.lh[s.phase.tail];
    assert BufOk(c, s, b);
    assert EntryOk(c, s, s.phase.tail);
    OtherWriteKeepsHead(c.g, s.disk, c.g.start + 1 + s.phase.tail, s.cache[b].data);
    SameContents(c.g, s.disk, t.disk);
    forall b' | b' in t.cache ensures BufOk(c, t, b') {
      assert BufOk(c, s, b');
    }
    forall i | 0 <= i < |t.lh| ensures EntryOk(c, t, i) {
      assert EntryOk(c, s, i);
    }
    SameCurrent(Durable(c, s), s.cache, t.cache);
  }

  lemma WriteHeadInv(c: Params, s: State, t: State)
    requires Inv(c, s) && WriteHeadStep(c, s, t)
    ensures Inv(c, t)
  {
    HeadBlockDecodes(c.g, s.disk, s.lh);
    forall b | b in t.cache ensures BufOk(c, t, b) {
      assert BufOk(c, s, b);
    }
    forall i | 0 <= i < |t.lh| ensures EntryOk(c, t, i) {
      assert EntryOk(c, s, i);
      assert LogCopy(c.g, t.disk, i) == LogCopy(c.g, s.disk, i);
    }
  }

  /** At the commit point the new durable block is the one operations see. */
  lemma CommittedBlock(c: Params, s: State, t: State, b: int)
    requires Inv(c, s) && WriteHeadStep(c, s, t) && Inv(c, t) && c.g.Home(b)
    ensures Contents(c.g, t.disk)[b] == Seen(s.cache, b, Contents(c.g, s.disk)[b])
  {
    if b in s.lh {
      var i := FirstIndex(s.lh, b);
      assert EntryOk(c, s, i) && EntryOk(c, t, i);
      ContentsOfEntry(c, t, b);
    } else {
      ContentsOutsideHeader(c, s, b);
      ContentsOutsideHeader(c, t, b);
      assert b in s.cache ==> BufOk(c, s, b);
    }
  }

  lemma CommitCurrent(before: map<int, Block>, after: map<int, Block>, cache: map<int, Buf>)
    requires before.Keys == after.Keys
    requires forall b :: b in after ==> after[b] == Seen(cache, b, before[b])
    ensures after == Current(before, cache) == Current(after, cache)
  {
  }

  /** The commit point: all that operations have done becomes durable at once. */
  lemma WriteHeadRefines(c: Params, s: State, t: State)
    requires Inv(c, s) && WriteHeadStep(c, s, t)
    ensures Inv(c, t)
    ensures TxStep(View(c, s), WriteHead, View(c, t))
  {
    WriteHeadInv(c, s, t);
    forall b | b in Durable(c, t) ensures Durable(c, t)[b] == Seen(s.cache, b, Durable(c, s)[b]) {
      CommittedBlock(c, s, t, b);
    }
    CommitCurrent(Durable(c, s), Durable(c, t), s.cache);
  }

  lemma InstalledEntry(c: Params, s: State, i: nat, d: Disk)
    requires Inv(c, s) && (s.phase.Install? || s.phase.Recover?) && i < |s.lh|
    requires d == s.disk[s.lh[i] := LogCopy(c.g, s.disk, i)]
    ensures LogOk(c.g, d) && Head(c.g, d) == s.lh && Contents(c.g, d) == Contents(c.g, s.disk)
    ensures forall j :: 0 <= j < |s.lh| ==> LogCopy(c.g, d, j) == LogCopy(c.g, s.disk, j)
  {
    OtherWriteKeepsHead(c.g, s.disk, s.lh[i], LogCopy(c.g, s.disk, i));
    assert s.lh[i] in s.lh;
    SameContents(c.g, s.disk, d);
  }

  lemma CopyHomeBuf(c: Params, s: State, t: State, b: int)
    requires Inv(c, s) && CopyHomeStep(c, s, t) && LogOk(c.g, t.disk) && b in s.cache
    ensures BufOk(c, t, b)
  {
    assert BufOk(c, s, b);
    var k := s.phase.tail;
    IndexOfEntry(s.lh, k);
    assert EntryOk(c, s, k);
    if b in s.lh && b != s.lh[k] {
      assert FirstIndex(s.lh, b) != k;
    }
  }

  lemma CopyHomeEntry(c: Params, s: State, t: State, i: nat)
    requires Inv(c, s) && CopyHomeStep(c, s, t) && LogOk(c.g, t.disk) && i < |s.lh|
    requires LogCopy(c.g, t.disk, i) == LogCopy(c.g, s.disk, i)
    ensures EntryOk(c, t, i)
  {
    hide FirstIndex, Head, Contents;
    assert EntryOk(c, s, i);
    var k := s.phase.tail;
    IndexOfEntry(s.lh, k);
    IndexOfEntry(s.lh, i);
    assert i != k ==> s.lh[i] != s.lh[k];
    assert LogCopy(c.g, s.disk, k) == s.disk[c.g.start + 1 + k];
  }

  lemma CopyHomeInv(c: Params, s: State, t: State)
    requires Inv(c, s) && CopyHomeStep(c, s, t)
    ensures Inv(c, t) && Durable(c, t) == Durable(c, s)
    ensures t.cache[s.lh[s.phase.tail]].data == s.cache[s.lh[s.phase.tail]].data
  {
    var k := s.phase.tail;
    assert LogCopy(c.g, s.disk, k) == s.disk[c.g.start + 1 + k];
    InstalledEntry(c, s, k, t.disk);
    assert EntryOk(c, s, k);
    forall b | b in t.cache ensures BufOk(c, t, b) {
      CopyHomeBuf(c, s, t, b);
    }
    forall i | 0 <= i < |t.lh| ensures EntryOk(c, t, i) {
      CopyHomeEntry(c, s, t, i);
    }
  }

  lemma CopyHomeRefines(c: Params, s: State, t: State)
    requires Inv(c, s) && CopyHomeStep(c, s, t)
    ensures Inv(c, t)
    ensures TxStep(View(c, s), CopyHome, View(c, t))
  {
    CopyHomeInv(c, s, t);
    var b := s.lh[s.phase.tail];
    SameCurrentBut(Durable(c, s), s.cache, b, t.cache[b]);
  }

  lemma EraseHeadRefines(c: Params, s: State, t: State)
    requires Inv(c, s) && EraseHeadStep(c, s, t)
    ensures Inv(c, t)
    ensures TxStep(View(c, s), EraseHead, View(c, t))
  {
    hide Contents, FirstIndex;
    forall i | 0 <= i < |s.lh| ensures s.disk[s.lh[i]] == LogCopy(c.g, s.disk, i) {
      assert EntryOk(c, s, i);
    }
    ClearInvisible(c.g, s.disk);
    forall b | b in t.cache ensures BufOk(c, t, b) {
      assert BufOk(c, s, b);
      if b in s.lh {
        assert EntryOk(c, s, FirstIndex(s.lh, b));
      }
    }
    SameCurrent(Durable(c, s), s.cache, t.cache);
  }

  lemma RecoverHomeInv(c: Params, s: State, t: State)
    requires Inv(c, s) && RecoverHomeStep(c, s, t)
    ensures Inv(c, t) && Durable(c, t) == Durable(c, s)
  {
    hide FirstIndex, Head, Contents;
    var k := s.phase.tail;
    assert LogCopy(c.g, s.disk, k) == s.disk[c.g.start + 1 + k];
    InstalledEntry(c, s, k, t.disk);
    IndexOfEntry(s.lh, k);
    forall i | 0 <= i < |t.lh| ensures EntryOk(c, t, i) {
      assert EntryOk(c, s, i);
      IndexOfEntry(s.lh, i);
    }
  }

  lemma RecoverHomeRefines(c: Params, s: State, t: State)
    requires Inv(c, s) && RecoverHomeStep(c, s, t)
    ensures Inv(c, t)
    ensures TxStep(View(c, s), RecoverHome, View(c, t))
  {
    RecoverHomeInv(c, s, t);
  }

  lemma RecoverEraseRefines(c: Params, s: State, t: State)
    requires Inv(c, s) && RecoverEraseStep(c, s, t)
    ensures Inv(c, t)
    ensures TxStep(View(c, s), RecoverErase, View(c, t))
  {
    forall i | 0 <= i < |s.lh| ensures s.disk[s.lh[i]] == LogCopy(c.g, s.disk, i) {
      assert EntryOk(c, s, i);
    }
    ClearInvisible(c.g, s.disk);
    SameCurrent(Durable(c, s), s.cache, t.cache);
  }

  lemma CommitDoneRefines(c: Params, s: State, t: State)
    requires Inv(c, s) && CommitDoneStep(s, t)
    ensures Inv(c, t)
    ensures TxStep(View(c, s), CommitDone, View(c, t))
  {
    forall b | b in t.cache ensures BufOk(c, t, b) {
      assert BufOk(c, s, b);
    }
  }

  lemma CrashRefines(c: Params, s: State, t: State)
    requires Inv(c, s) && CrashStep(c, s, t)
    ensures Inv(c, t)
    ensures TxStep(View(c, s), Crash, View(c, t))
  {
    CurrentOfEmptyCache(Durable(c, s));
  }

  lemma StepRefines(c: Params, s: State, e: Event, t: State)
    requires Inv(c, s) && Step(c, s, e, t)
    ensures Inv(c, t)
    ensures TxStep(View(c, s), e, View(c, t))
  {
    hide Inv, View;
    match e
    case BeginOp(p) => BeginOpRefines(c, s, p, t);
    case EndOp(p) => EndOpRefines(c, s, p, t);
    case Bget(p, b) => BgetRefines(c, s, p, b, t);
    case Lock(p, b) => LockRefines(c, s, p, b, t);
    case Fill(p, b) => FillRefines(c, s, p, b, t);
    case Modify(p, b, data) => ModifyRefines(c, s, p, b, data, t);
    case LogWrite(p, b) => LogWriteRefines(c, s, p, b, t);
    case Brelse(p, b) => BrelseRefines(c, s, p, b, t);
    case Evict(b) => EvictRefines(c, s, b, t);
    case CopyToLog => CopyToLogRefines(c, s, t);
    case WriteHead => WriteHeadRefines(c, s, t);
    case CopyHome => CopyHomeRefines(c, s, t);
    case EraseHead => EraseHeadRefines(c, s, t);
    case CommitDone => CommitDoneRefines(c, s, t);
    case Crash => CrashRefines(c, s, t);
    case RecoverHome => RecoverHomeRefines(c, s, t);
    case RecoverErase => RecoverEraseRefines(c, s, t);
  }

  // ---------------------------------------------------------------------
  // Whole runs

  ghost predicate IsRun(c: Params, run: seq<State>, events: seq<Event>) {
    && |run| == |events| + 1
    && Init(c, run[0])
    && forall i :: 0 <= i < |events| ==> Step(c, run[i], events[i], run[i + 1])
  }

  lemma {:induction false} RunInv(c: Params, run: seq<State>, events: seq<Event>, n: nat)
    requires IsRun(c, run, events) && n < |run|
    ensures Inv(c, run[n])
  {
    hide Step;
    if n > 0 {
      RunInv(c, run, events, n - 1);
      StepRefines(c, run[n - 1], events[n - 1], run[n]);
    }
  }

  /** Every run, with any interleaving and any crashes, is a run of the atomic disk. */
  lemma RunRefines(c: Params, run: seq<State>, events: seq<Event>, i: nat)
    requires IsRun(c, run, events) && i < |events|
    ensures Inv(c, run[i]) && Inv(c, run[i + 1])
    ensures TxStep(View(c, run[i]), events[i], View(c, run[i + 1]))
  {
    RunInv(c, run, events, i);
    StepRefines(c, run[i], events[i], run[i + 1]);
  }

  /** The block a step may write: a log block, or the next one to install. */
  lemma DiskChanges(c: Params, s: State, e: Event, t: State, b: int)
    requires Inv(c, s) && Step(c, s, e, t) && c.g.Home(b)
    ensures |s.disk| == |t.disk| == c.g.nblocks
    ensures t.disk[b] != s.disk[b] ==>
      && (s.phase.Install? || s.phase.Recover?) && s.phase.tail < |s.lh| && s.lh[s.phase.tail] == b
      && 0 <= c.g.start + 1 + s.phase.tail < |s.disk| && t.disk[b] == s.disk[c.g.start + 1 + s.phase.tail]
  {
    hide BufOk, EntryOk, Head, HeadBlock, Distinct;
  }

  lemma HomeChanges(c: Params, s: State, e: Event, t: State, b: int)
    requires Inv(c, s) && Step(c, s, e, t) && c.g.Home(b)
    ensures |s.disk| == |t.disk| == c.g.nblocks
    ensures t.disk[b] != s.disk[b] ==>
      && (s.phase.Install? || s.phase.Recover?) && b in Head(c.g, s.disk)
      && t.disk[b] == Contents(c.g, s.disk)[b]
  {
    hide Step, BufOk, EntryOk, Contents, Distinct, FirstIndex;
    DiskChanges(c, s, e, t, b);
    if t.disk[b] != s.disk[b] {
      IndexOfEntry(s.lh, s.phase.tail);
      ContentsOfEntry(c, s, b);
    }
  }

  /** The blocks outside the log change on disk only while commit installs a transaction
      whose header is on disk, or in recovery, and then become what is durable already. */
  lemma HomeChangesInRun(c: Params, run: seq<State>, events: seq<Event>, i: nat, b: int)
    requires IsRun(c, run, events) && i < |events| && c.g.Home(b)
    ensures |run[i].disk| == |run[i + 1].disk| == c.g.nblocks && LogOk(c.g, run[i].disk)
    ensures run[i + 1].disk[b] != run[i].disk[b] ==>
      && (run[i].phase.Install? || run[i].phase.Recover?) && b in Head(c.g, run[i].disk)
      && run[i + 1].disk[b] == Contents(c.g, run[i].disk)[b]
  {
    RunInv(c, run, events, i);
    HomeChanges(c, run[i], events[i], run[i + 1], b);
  }

  lemma ActiveKeepsCommitted(a: TxDisk, e: Event, a': TxDisk)
    requires TxStep(a, e, a') && a.active != {}
    ensures a'.committed == a.committed
  {
  }

  lemma OpKeepsDurable(c: Params, s: State, e: Event, t: State, p: Proc)
    requires Inv(c, s) && Step(c, s, e, t) && p in s.ops
    ensures Durable(c, t) == Durable(c, s)
  {
    StepRefines(c, s, e, t);
    assert p in View(c, s).active;
    ActiveKeepsCommitted(View(c, s), e, View(c, t));
  }

  /** No operation is split across two commits: the durable contents are the same
      at any two points of a run between which p's operation stays outstanding. */
  lemma {:induction false} OperationNotSplit(c: Params, run: seq<State>, events: seq<Event>, p: Proc, i: nat, j: nat)
    requires IsRun(c, run, events) && i <= j < |run|
    requires forall k :: i <= k <= j ==> p in run[k].ops
    ensures Durable(c, run[j]) == Durable(c, run[i])
    decreases j
  {
    hide Inv, Durable, Step;
    if i < j {
      OperationNotSplit(c, run, events, p, i, j - 1);
      var k := j - 1;
      RunInv(c, run, events, k);
      OpKeepsDurable(c, run[k], events[k], run[k + 1], p);
    }
  }

  /** While p is outside an operation, all steps but crashes keep q true of what operations
      see, and q is true of it when an operation of p ends. */
  ghost predicate Keeps(c: Params, run: seq<State>, events: seq<Event>, p: Proc, q: map<int, Block> -> bool) {
    && |run| == |events| + 1
    && forall i :: 0 <= i < |events| && !events[i].Crash? && p !in run[i + 1].ops ==>
         (p !in run[i].ops ==> q(View(c, run[i]).current)) ==> q(View(c, run[i + 1]).current)
  }

  lemma KeptThrough(a: TxDisk, e: Event, a': TxDisk, p: Proc, q: map<int, Block> -> bool)
    requires TxStep(a, e, a') && q(a.committed) && (p !in a.active ==> q(a.current))
    requires !e.Crash? && p !in a'.active ==> q(a'.current)
    ensures q(a'.committed) && (p !in a'.active ==> q(a'.current))
  {
  }

  /** What whole operations of p keep, crashes keep: q, true at first, is true of the durable
      contents in every state of the run, in the middle of operations, commits and
      recoveries, and of what operations see whenever p is outside an operation. */
  lemma {:induction false} OperationsKeep(c: Params, run: seq<State>, events: seq<Event>, p: Proc,
                                          q: map<int, Block> -> bool, n: nat)
    requires IsRun(c, run, events) && n < |run| && q(Durable(c, run[0])) && Keeps(c, run, events, p, q)
    ensures q(Durable(c, run[n])) && (p !in run[n].ops ==> q(View(c, run[n]).current))
  {
    hide Step, Inv, TxStep, Durable, Current;
    if n == 0 {
      CurrentOfEmptyCache(Durable(c, run[0]));
    } else {
      var i := n - 1;
      OperationsKeep(c, run, events, p, q, i);
      RunRefines(c, run, events, i);
      assert !events[i].Crash? && p !in run[i + 1].ops ==> q(View(c, run[i + 1]).current);
      KeptThrough(View(c, run[i]), events[i], View(c, run[i + 1]), p, q);
    }
  }
}
