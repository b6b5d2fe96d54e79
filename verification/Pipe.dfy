/** Pipes (kernel/pipe.c): readers and writers that share a ring under the pipe's
    lock, with 32-bit counters that wrap. The lock is held through every step of an
    operation except while its process sleeps, so the machine below interleaves the
    loop turns of any number of processes. sleep and wakeup are atomic here: module
    SleepWakeup shows that a sleeper misses no wakeup, for a lock that guards both
    channels, whenever a process that makes a channel's condition true calls wakeup
    before it releases the lock. A writer that is killed does not, and that is
    the exception proved below. */
module Pipe {
  import opened Common
  import opened Modular

  type Byte = int

  const U32: int := 0x1_0000_0000

  /** Where a process is. `woke` is the value of i when readers were last woken. */
  datatype Thread =
    | WWait(bytes: seq<Byte>, i: nat)            // writer, about to (re)acquire the lock
    | WLoop(bytes: seq<Byte>, i: nat, woke: nat) // writer, at the top of its loop
    | WAsleep(bytes: seq<Byte>, i: nat)          // writer, asleep on &nwrite
    | RWait(n: nat)
    | RTop(n: nat)                               // reader, at the test for an empty pipe
    | RAsleep(n: nat)                            // reader, asleep on &nread
    | RCopy(n: nat, got: seq<Byte>)              // reader, in its copy loop

  /** The pipe, the processes inside pipewrite or piperead, and histories: every byte ever
      put into the ring, who put it there, and every byte ever taken out. */
  datatype State = State(
    data: seq<Byte>, nread: int, nwrite: int, readopen: bool, writeopen: bool,
    lock: Holder, threads: map<Proc, Thread>, killed: set<Proc>,
    stored: seq<Byte>, writers: seq<Proc>, consumed: seq<Byte>)

  datatype Event =
    | StartWrite(p: Proc, bytes: seq<Byte>)
    | StartRead(p: Proc, n: nat)
    | Acquire(p: Proc)
    | Store(p: Proc)
    | WriteSleep(p: Proc)
    | WriteClosed(p: Proc)
    | WriteKilled(p: Proc)
    | WriteDone(p: Proc, fault: bool)
    | ReadSleep(p: Proc)
    | ReadKilled(p: Proc)
    | ReadBegin(p: Proc)
    | Take(p: Proc, fault: bool)
    | ReadDone(p: Proc)
    | CloseWrite
    | CloseRead
    | Kill(p: Proc)

  predicate Writer(t: Thread) {
    t.WWait? || t.WLoop? || t.WAsleep?
  }

  predicate Holding(t: Thread) {
    t.WLoop? || t.RTop? || t.RCopy?
  }

  function Wake(t: Thread, reader: bool): Thread {
    match t
    case RAsleep(n) => if reader then RWait(n) else t
    case WAsleep(bytes, i) => if reader then t else WWait(bytes, i)
    case _ => t
  }

  /** wakeup(&nread) if reader, wakeup(&nwrite) otherwise. */
  function Wakeup(threads: map<Proc, Thread>, reader: bool): map<Proc, Thread> {
    map q | q in threads :: Wake(threads[q], reader)
  }

  predicate Full(size: nat, s: State) {
    s.nwrite == Wrap(s.nread + size, U32)
  }

  predicate Empty(s: State) {
    s.nread == s.nwrite
  }

  predicate InLoop(s: State, p: Proc) {
    s.lock == HeldBy(p) && p in s.threads && s.threads[p].WLoop?
  }

  predicate AtTop(s: State, p: Proc) {
    s.lock == HeldBy(p) && p in s.threads && s.threads[p].RTop?
  }

  predicate Copying(s: State, p: Proc) {
    s.lock == HeldBy(p) && p in s.threads && s.threads[p].RCopy?
  }

  // ---------------------------------------------------------------------
  // Steps

  predicate AcquireStep(s: State, p: Proc, t: State) {
    && s.lock == Free && p in s.threads
    && match s.threads[p]
       case WWait(bytes, i) => t == s.(lock := HeldBy(p), threads := s.threads[p := WLoop(bytes, i, i)])
       case RWait(n) => t == s.(lock := HeldBy(p), threads := s.threads[p := RTop(n)])
       case _ => false
  }

  /** The loop goes on: bytes are left, the reader's end is open, not killed. */
  predicate GoesOn(s: State, p: Proc) {
    && InLoop(s, p) && s.threads[p].i < |s.threads[p].bytes|
    && s.readopen && p !in s.killed
  }

  predicate StoreStep(size: nat, s: State, p: Proc, t: State) {
    && GoesOn(s, p) && !Full(size, s) && 0 < size == |s.data|
    && var w := s.threads[p];
       t == s.(data := s.data[Slot(s.nwrite, size) := w.bytes[w.i]], nwrite := Wrap(s.nwrite + 1, U32),
               threads := s.threads[p := WLoop(w.bytes, w.i + 1, w.woke)],
               stored := s.stored + [w.bytes[w.i]], writers := s.writers + [p])
  }

  predicate WriteSleepStep(size: nat, s: State, p: Proc, t: State) {
    && GoesOn(s, p) && Full(size, s)
    && t == s.(lock := Free, threads := Wakeup(s.threads, true)[p := WAsleep(s.threads[p].bytes, s.threads[p].i)])
  }

  /** Return -1, with no wakeup. */
  predicate WriteClosedStep(s: State, p: Proc, t: State) {
    && InLoop(s, p) && s.threads[p].i < |s.threads[p].bytes| && !s.readopen
    && t == s.(lock := Free, threads := s.threads - {p})
  }

  /** Return -1, with no wakeup. */
  predicate WriteKilledStep(s: State, p: Proc, t: State) {
    && InLoop(s, p) && s.threads[p].i < |s.threads[p].bytes| && s.readopen && p in s.killed
    && t == s.(lock := Free, threads := s.threads - {p})
  }

  /** All bytes are stored, or copyin failed: wake the readers and return. */
  predicate WriteDoneStep(size: nat, s: State, p: Proc, fault: bool, t: State) {
    && InLoop(s, p)
    && (if fault then GoesOn(s, p) && !Full(size, s) else s.threads[p].i == |s.threads[p].bytes|)
    && t == s.(lock := Free, threads := Wakeup(s.threads, true) - {p})
  }

  predicate ReadSleepStep(s: State, p: Proc, t: State) {
    && AtTop(s, p) && Empty(s) && s.writeopen && p !in s.killed
    && t == s.(lock := Free, threads := s.threads[p := RAsleep(s.threads[p].n)])
  }

  predicate ReadKilledStep(s: State, p: Proc, t: State) {
    && AtTop(s, p) && Empty(s) && s.writeopen && p in s.killed
    && t == s.(lock := Free, threads := s.threads - {p})
  }

  predicate ReadBeginStep(s: State, p: Proc, t: State) {
    && AtTop(s, p) && !(Empty(s) && s.writeopen)
    && t == s.(threads := s.threads[p := RCopy(s.threads[p].n, [])])
  }

  /** One byte leaves the ring; if copyout then fails the read ends. */
  predicate TakeStep(size: nat, s: State, p: Proc, fault: bool, t: State) {
    && Copying(s, p) && |s.threads[p].got| < s.threads[p].n && !Empty(s)
    && 0 < size == |s.data|
    && var r := s.threads[p];
       var ch := s.data[Slot(s.nread, size)];
       var u := s.(nread := Wrap(s.nread + 1, U32), consumed := s.consumed + [ch]);
       t == if fault then u.(lock := Free, threads := Wakeup(s.threads, false) - {p})
            else u.(threads := s.threads[p := RCopy(r.n, r.got + [ch])])
  }

  predicate ReadDoneStep(s: State, p: Proc, t: State) {
    && Copying(s, p) && (|s.threads[p].got| >= s.threads[p].n || Empty(s))
    && t == s.(lock := Free, threads := Wakeup(s.threads, false) - {p})
  }

  /** The last reference to an end is dropped, so no process is inside an operation
      on that end. */
  predicate CloseStep(s: State, writable: bool, t: State) {
    && s.lock == Free
    && (forall q :: q in s.threads ==> Writer(s.threads[q]) != writable)
    && t == (if writable then s.(writeopen := false) else s.(readopen := false))
            .(threads := Wakeup(s.threads, writable))
  }

  /** kill: the process is marked, and woken if it sleeps. */
  predicate KillStep(s: State, p: Proc, t: State) {
    && t == s.(killed := s.killed + {p},
               threads := if p in s.threads then s.threads[p := Wake(Wake(s.threads[p], true), false)] else s.threads)
  }

  /** A turn of the loop of pipewrite. */
  predicate WriteTurn(size: nat, s: State, e: Event, t: State) {
    match e
    case Store(p) => StoreStep(size, s, p, t)
    case WriteSleep(p) => WriteSleepStep(size, s, p, t)
    case WriteClosed(p) => WriteClosedStep(s, p, t)
    case WriteKilled(p) => WriteKilledStep(s, p, t)
    case WriteDone(p, fault) => WriteDoneStep(size, s, p, fault, t)
    case _ => false
  }

  /** A turn of one of the loops of piperead. */
  predicate ReadTurn(size: nat, s: State, e: Event, t: State) {
    match e
    case ReadSleep(p) => ReadSleepStep(s, p, t)
    case ReadKilled(p) => ReadKilledStep(s, p, t)
    case ReadBegin(p) => ReadBeginStep(s, p, t)
    case Take(p, fault) => TakeStep(size, s, p, fault, t)
    case ReadDone(p) => ReadDoneStep(s, p, t)
    case _ => false
  }

  /** Calls, acquire, pipeclose and kill. */
  predicate OutsideTurn(s: State, e: Event, t: State) {
    match e
    case StartWrite(p, bytes) => p !in s.threads && s.writeopen && t == s.(threads := s.threads[p := WWait(bytes, 0)])
    case StartRead(p, n) => p !in s.threads && s.readopen && t == s.(threads := s.threads[p := RWait(n)])
    case Acquire(p) => AcquireStep(s, p, t)
    case CloseWrite => CloseStep(s, true, t)
    case CloseRead => CloseStep(s, false, t)
    case Kill(p) => KillStep(s, p, t)
    case _ => false
  }

  predicate Step(size: nat, s: State, e: Event, t: State) {
    WriteTurn(size, s, e, t) || ReadTurn(size, s, e, t) || OutsideTurn(s, e, t)
  }

  /** pipealloc; the page from kalloc holds anything. */
  predicate Init(size: nat, s: State) {
    && |s.data| == size
    && s == State(s.data, 0, 0, true, true, Free, map[], s.killed, [], [], [])
  }

  /** PIPESIZE divides the range of the counters. */
  predicate SizeOk(size: nat) {
    0 < size < U32 && U32 % size == 0
  }

  // ---------------------------------------------------------------------
  // The ring

  ghost predicate RingInv(size: nat, s: State)
    requires size > 0
  {
    && |s.data| == size
    && |s.consumed| <= |s.stored| <= |s.consumed| + size
    && s.nread == Wrap(|s.consumed|, U32)
    && s.nwrite == Wrap(|s.stored|, U32)
    && s.consumed == s.stored[..|s.consumed|]
    && (forall i :: |s.consumed| <= i < |s.stored| ==> s.data[Slot(i, size)] == s.stored[i])
  }

  /** The code's two tests, on wrapped counters, mean what they should. */
  lemma TestsMean(size: nat, s: State)
    requires SizeOk(size) && RingInv(size, s)
    ensures Empty(s) <==> |s.consumed| == |s.stored|
    ensures Full(size, s) <==> |s.stored| == |s.consumed| + size
  {
    hide Wrap, Slot;
    SameWrap(|s.consumed|, |s.stored|, U32);
    SameWrap(|s.stored|, |s.consumed| + size, U32);
    WrapAdd(|s.consumed|, size, U32);
  }

  lemma StoreRing(size: nat, s: State, p: Proc, t: State)
    requires SizeOk(size) && RingInv(size, s) && StoreStep(size, s, p, t)
    ensures RingInv(size, t)
  {
    hide Wrap, Slot;
    TestsMean(size, s);
    SlotOfWrapped(|s.stored|, U32, size);
    WrapAdd(|s.stored|, 1, U32);
    var n := |s.stored|;
    forall i | |t.consumed| <= i < |t.stored| ensures t.data[Slot(i, size)] == t.stored[i] {
      if i < n {
        SlotsApart(i, n, size);
      }
    }
  }

  lemma TakeRing(size: nat, s: State, p: Proc, fault: bool, t: State)
    requires SizeOk(size) && RingInv(size, s) && TakeStep(size, s, p, fault, t)
    ensures RingInv(size, t)
    ensures |s.consumed| < |s.stored| && t.consumed == s.consumed + [s.stored[|s.consumed|]]
  {
    hide Wrap, Slot;
    TestsMean(size, s);
    SlotOfWrapped(|s.consumed|, U32, size);
    WrapAdd(|s.consumed|, 1, U32);
    assert s.stored[..|s.consumed| + 1] == s.stored[..|s.consumed|] + [s.stored[|s.consumed|]];
  }

  lemma StepRing(size: nat, s: State, e: Event, t: State)
    requires SizeOk(size) && RingInv(size, s) && Step(size, s, e, t)
    ensures RingInv(size, t)
  {
    hide Wrap, Slot, Full, Empty;
    match e
    case Store(p) => StoreRing(size, s, p, t);
    case Take(p, fault) => TakeRing(size, s, p, fault, t);
    case _ =>
  }

  /** The bytes waiting in the ring, read off the wrapped counters. */
  function Waiting(size: nat, s: State): seq<Byte>
    requires SizeOk(size) && |s.data| == size
  {
    seq(Wrap(s.nwrite - s.nread, U32), i => s.data[Slot(Wrap(s.nread + i, U32), size)])
  }

  lemma WaitingIs(size: nat, s: State)
    requires SizeOk(size) && RingInv(size, s)
    ensures Waiting(size, s) == s.stored[|s.consumed|..]
  {
    hide Slot, Wrap;
    var c, n := |s.consumed|, |s.stored|;
    WrapDifference(c, n, U32);
    var waiting := Waiting(size, s);
    forall i | 0 <= i < |waiting| ensures waiting[i] == s.stored[c..][i] {
      WrapAdd(c, i, U32);
      SlotOfWrapped(c + i, U32, size);
    }
  }

  // ---------------------------------------------------------------------
  // Who holds the lock and who sleeps

  /** Bytes the lock holder, a writer, has stored and readers were not told of. */
  function Unannounced(s: State): int {
    if s.lock.HeldBy? && InLoop(s, s.lock.p) then s.threads[s.lock.p].i - s.threads[s.lock.p].woke else 0
  }

  predicate SomeoneCopies(s: State) {
    s.lock.HeldBy? && Copying(s, s.lock.p)
  }

  /** The last k elements. */
  function Last(s: seq<Byte>, k: nat): seq<Byte> {
    if k <= |s| then s[|s| - k..] else []
  }

  /** Sleepers aside, where a process can be. A read returns consecutive bytes. */
  predicate PlaceOk(s: State, p: Proc, th: Thread) {
    && (Writer(th) ==> s.writeopen && th.i <= |th.bytes|)
    && (!Writer(th) ==> s.readopen)
    && (Holding(th) ==> s.lock == HeldBy(p))
    && (th.WLoop? ==> th.woke <= th.i && th.i - th.woke <= |s.stored| - |s.consumed|)
    && (th.RCopy? ==> |th.got| <= th.n && th.got == Last(s.consumed, |th.got|) && |th.got| <= |s.consumed|)
    && (th.RCopy? && th.got == [] ==> !(Empty(s) && s.writeopen))
    && (th.WAsleep? ==> s.readopen)
    && (th.RAsleep? ==> s.writeopen)
  }

  ghost predicate PlaceInv(s: State) {
    && (forall p :: p in s.threads ==> PlaceOk(s, p, s.threads[p]))
    && (s.lock.HeldBy? ==> s.lock.p in s.threads && Holding(s.threads[s.lock.p]))
    && |s.consumed| <= |s.stored|
  }

  /** The process that runs an event of its own. */
  function Actor(e: Event): Holder {
    match e
    case Acquire(p) => HeldBy(p)
    case Store(p) => HeldBy(p)
    case WriteSleep(p) => HeldBy(p)
    case WriteClosed(p) => HeldBy(p)
    case WriteKilled(p) => HeldBy(p)
    case WriteDone(p, _) => HeldBy(p)
    case ReadSleep(p) => HeldBy(p)
    case ReadKilled(p) => HeldBy(p)
    case ReadBegin(p) => HeldBy(p)
    case Take(p, _) => HeldBy(p)
    case ReadDone(p) => HeldBy(p)
    case _ => Free
  }

  lemma WriteOtherPlace(size: nat, s: State, e: Event, t: State, q: Proc)
    requires PlaceInv(s) && WriteTurn(size, s, e, t) && q in t.threads && q in s.threads && Actor(e) != HeldBy(q)
    ensures PlaceOk(t, q, t.threads[q])
  {
    hide Full, Slot, Wrap;
    assert PlaceOk(s, q, s.threads[q]);
  }

  lemma ReadOtherPlace(size: nat, s: State, e: Event, t: State, q: Proc)
    requires PlaceInv(s) && ReadTurn(size, s, e, t) && q in t.threads && q in s.threads && Actor(e) != HeldBy(q)
    ensures PlaceOk(t, q, t.threads[q])
  {
    hide Full, Slot, Wrap;
    assert PlaceOk(s, q, s.threads[q]);
  }

  lemma OutsideOtherPlace(s: State, e: Event, t: State, q: Proc)
    requires PlaceInv(s) && OutsideTurn(s, e, t) && q in t.threads && q in s.threads && Actor(e) != HeldBy(q)
    ensures PlaceOk(t, q, t.threads[q])
  {
    hide Full, Slot, Wrap;
    assert PlaceOk(s, q, s.threads[q]);
  }

  lemma OtherPlace(size: nat, s: State, e: Event, t: State, q: Proc)
    requires PlaceInv(s) && Step(size, s, e, t) && q in t.threads && q in s.threads && Actor(e) != HeldBy(q)
    ensures PlaceOk(t, q, t.threads[q])
  {
    hide PlaceInv, PlaceOk;
    hide WriteTurn, ReadTurn, OutsideTurn;
    if WriteTurn(size, s, e, t) { WriteOtherPlace(size, s, e, t, q); }
    else if ReadTurn(size, s, e, t) { ReadOtherPlace(size, s, e, t, q); }
    else { OutsideOtherPlace(s, e, t, q); }
  }

  lemma WriteOwnPlace(size: nat, s: State, e: Event, t: State, q: Proc)
    requires PlaceInv(s) && WriteTurn(size, s, e, t) && q in t.threads && Actor(e) == HeldBy(q)
    ensures PlaceOk(t, q, t.threads[q])
  {
    hide Full, Slot, Wrap;
    assert PlaceOk(s, q, s.threads[q]);
  }

  lemma ReadOwnPlace(size: nat, s: State, e: Event, t: State, q: Proc)
    requires PlaceInv(s) && ReadTurn(size, s, e, t) && q in t.threads && Actor(e) == HeldBy(q)
    requires |s.consumed| < |s.stored| || Empty(s) || !e.Take?
    ensures PlaceOk(t, q, t.threads[q])
  {
    hide Full, Slot, Wrap;
    assert PlaceOk(s, q, s.threads[q]);
  }

  lemma OutsideOwnPlace(s: State, e: Event, t: State, q: Proc)
    requires PlaceInv(s) && OutsideTurn(s, e, t) && q in t.threads && (Actor(e) == HeldBy(q) || q !in s.threads)
    ensures PlaceOk(t, q, t.threads[q])
  {
    hide Full, Slot, Wrap;
    assert q in s.threads ==> PlaceOk(s, q, s.threads[q]);
  }

  lemma OwnPlace(size: nat, s: State, e: Event, t: State, q: Proc)
    requires PlaceInv(s) && Step(size, s, e, t) && q in t.threads && (Actor(e) == HeldBy(q) || q !in s.threads)
    requires |s.consumed| < |s.stored| || Empty(s) || !e.Take?
    ensures PlaceOk(t, q, t.threads[q])
  {
    hide PlaceInv, PlaceOk;
    if q !in s.threads {
      TurnOf(size, s, e, t, q);
    }
    hide WriteTurn, ReadTurn, OutsideTurn;
    if WriteTurn(size, s, e, t) { WriteOwnPlace(size, s, e, t, q); }
    else if ReadTurn(size, s, e, t) { ReadOwnPlace(size, s, e, t, q); }
    else { OutsideOwnPlace(s, e, t, q); }
  }

  /** A process that begins an operation does so outside the loops. */
  lemma TurnOf(size: nat, s: State, e: Event, t: State, q: Proc)
    requires Step(size, s, e, t) && q in t.threads && q !in s.threads
    ensures OutsideTurn(s, e, t)
  {
    hide Full, Slot, Wrap, Empty;
  }

  lemma RingSizes(size: nat, s: State)
    requires size > 0 && RingInv(size, s)
    ensures |s.consumed| <= |s.stored|
  {
  }

  lemma StepPlace(size: nat, s: State, e: Event, t: State)
    requires SizeOk(size) && RingInv(size, s) && PlaceInv(s) && Step(size, s, e, t)
    ensures PlaceInv(t)
  {
    hide RingInv, Full, Slot, Wrap, PlaceOk;
    TestsMean(size, s);
    StepRing(size, s, e, t);
    RingSizes(size, s);
    RingSizes(size, t);
    forall q | q in t.threads ensures PlaceOk(t, q, t.threads[q]) {
      if q !in s.threads || Actor(e) == HeldBy(q) {
        OwnPlace(size, s, e, t, q);
      } else {
        OtherPlace(size, s, e, t, q);
      }
    }
  }

  /** A process asleep that should not be, unless the lock holder is about to wake it. */
  ghost predicate Waits(size: nat, s: State, th: Thread) {
    && (th.RAsleep? ==> |s.consumed| == |s.stored| || Unannounced(s) > 0)
    && (th.WAsleep? ==> |s.stored| == |s.consumed| + size || SomeoneCopies(s))
  }

  ghost predicate QuietInv(size: nat, s: State) {
    forall q :: q in s.threads ==> Waits(size, s, s.threads[q])
  }

  lemma WriteWaits(size: nat, s: State, e: Event, t: State, q: Proc)
    requires PlaceInv(s) && QuietInv(size, s) && WriteTurn(size, s, e, t) && q in t.threads
    requires e.WriteKilled? ==> Unannounced(s) == 0
    requires |s.stored| <= |s.consumed| + size
    requires Empty(s) <==> |s.consumed| == |s.stored|
    requires Full(size, s) <==> |s.stored| == |s.consumed| + size
    ensures Waits(size, t, t.threads[q])
  {
    hide Slot, Wrap, Full, Empty;
    if q in s.threads {
      assert Waits(size, s, s.threads[q]) && PlaceOk(s, q, s.threads[q]);
    }
    if s.lock.HeldBy? {
      assert PlaceOk(s, s.lock.p, s.threads[s.lock.p]);
    }
  }

  lemma ReadWaits(size: nat, s: State, e: Event, t: State, q: Proc)
    requires PlaceInv(s) && QuietInv(size, s) && ReadTurn(size, s, e, t) && q in t.threads
    requires e.WriteKilled? ==> Unannounced(s) == 0
    requires |s.stored| <= |s.consumed| + size
    requires Empty(s) <==> |s.consumed| == |s.stored|
    requires Full(size, s) <==> |s.stored| == |s.consumed| + size
    ensures Waits(size, t, t.threads[q])
  {
    hide Slot, Wrap, Full, Empty;
    if q in s.threads {
      assert Waits(size, s, s.threads[q]) && PlaceOk(s, q, s.threads[q]);
    }
    if s.lock.HeldBy? {
      assert PlaceOk(s, s.lock.p, s.threads[s.lock.p]);
    }
  }

  lemma OutsideWaits(size: nat, s: State, e: Event, t: State, q: Proc)
    requires PlaceInv(s) && QuietInv(size, s) && OutsideTurn(s, e, t) && q in t.threads
    requires e.WriteKilled? ==> Unannounced(s) == 0
    requires |s.stored| <= |s.consumed| + size
    requires Empty(s) <==> |s.consumed| == |s.stored|
    requires Full(size, s) <==> |s.stored| == |s.consumed| + size
    ensures Waits(size, t, t.threads[q])
  {
    hide Slot, Wrap, Full, Empty;
    if q in s.threads {
      assert Waits(size, s, s.threads[q]) && PlaceOk(s, q, s.threads[q]);
    }
    if s.lock.HeldBy? {
      assert PlaceOk(s, s.lock.p, s.threads[s.lock.p]);
    }
  }

  lemma StepWaits(size: nat, s: State, e: Event, t: State, q: Proc)
    requires PlaceInv(s) && QuietInv(size, s) && Step(size, s, e, t) && q in t.threads
    requires e.WriteKilled? ==> Unannounced(s) == 0
    requires |s.stored| <= |s.consumed| + size
    requires Empty(s) <==> |s.consumed| == |s.stored|
    requires Full(size, s) <==> |s.stored| == |s.consumed| + size
    ensures Waits(size, t, t.threads[q])
  {
    hide PlaceInv, QuietInv, Waits, Full, Empty, Unannounced;
    hide WriteTurn, ReadTurn, OutsideTurn;
    if WriteTurn(size, s, e, t) { WriteWaits(size, s, e, t, q); }
    else if ReadTurn(size, s, e, t) { ReadWaits(size, s, e, t, q); }
    else { OutsideWaits(size, s, e, t, q); }
  }

  lemma StepQuiet(size: nat, s: State, e: Event, t: State)
    requires SizeOk(size) && RingInv(size, s) && PlaceInv(s) && QuietInv(size, s) && Step(size, s, e, t)
    requires e.WriteKilled? ==> Unannounced(s) == 0
    ensures QuietInv(size, t)
  {
    TestsMean(size, s);
    hide PlaceInv, Full, Empty, Waits;
    forall q | q in t.threads ensures Waits(size, t, t.threads[q]) {
      StepWaits(size, s, e, t, q);
    }
  }

  // ---------------------------------------------------------------------
  // Whose bytes are stored

  /** The bytes that p put into the ring, in order. */
  function BytesOf(stored: seq<Byte>, writers: seq<Proc>, p: Proc): seq<Byte>
    requires |stored| == |writers|
  {
    if stored == [] then []
    else
      var k := |stored| - 1;
      BytesOf(stored[..k], writers[..k], p) + if writers[k] == p then [stored[k]] else []
  }

  lemma BytesOfNext(stored: seq<Byte>, writers: seq<Proc>, p: Proc, b: Byte, q: Proc)
    requires |stored| == |writers|
    ensures BytesOf(stored + [b], writers + [q], p) == BytesOf(stored, writers, p) + if q == p then [b] else []
  {
    assert (stored + [b])[..|stored|] == stored && (writers + [q])[..|writers|] == writers;
  }

  /** What a writer has stored so far is the last that its process put into the ring. */
  predicate WriterOk(s: State, p: Proc, th: Thread)
    requires |s.stored| == |s.writers|
  {
    Writer(th) ==>
      th.i <= |th.bytes| && th.i <= |BytesOf(s.stored, s.writers, p)| &&
      th.bytes[..th.i] == Last(BytesOf(s.stored, s.writers, p), th.i)
  }

  ghost predicate WritersInv(s: State) {
    |s.stored| == |s.writers| && forall p :: p in s.threads ==> WriterOk(s, p, s.threads[p])
  }

  lemma WriteStillAt(size: nat, s: State, e: Event, t: State, q: Proc)
    requires WriteTurn(size, s, e, t) && !e.Store? && q in t.threads && Writer(t.threads[q])
    ensures t.stored == s.stored && t.writers == s.writers
    ensures if q in s.threads then Writer(s.threads[q]) && t.threads[q].bytes == s.threads[q].bytes && t.threads[q].i == s.threads[q].i
            else t.threads[q].i == 0
  {
    hide Full, Slot, Wrap, Empty;
  }

  lemma ReadStillAt(size: nat, s: State, e: Event, t: State, q: Proc)
    requires ReadTurn(size, s, e, t) && !e.Store? && q in t.threads && Writer(t.threads[q])
    ensures t.stored == s.stored && t.writers == s.writers
    ensures if q in s.threads then Writer(s.threads[q]) && t.threads[q].bytes == s.threads[q].bytes && t.threads[q].i == s.threads[q].i
            else t.threads[q].i == 0
  {
    hide Full, Slot, Wrap, Empty;
  }

  lemma OutsideStillAt(s: State, e: Event, t: State, q: Proc)
    requires OutsideTurn(s, e, t) && q in t.threads && Writer(t.threads[q])
    ensures t.stored == s.stored && t.writers == s.writers
    ensures if q in s.threads then Writer(s.threads[q]) && t.threads[q].bytes == s.threads[q].bytes && t.threads[q].i == s.threads[q].i
            else t.threads[q].i == 0
  {
    hide Full, Slot, Wrap, Empty;
  }

  /** Only Store adds bytes, and only it advances a writer. */
  lemma StillAt(size: nat, s: State, e: Event, t: State, q: Proc)
    requires Step(size, s, e, t) && !e.Store? && q in t.threads && Writer(t.threads[q])
    ensures t.stored == s.stored && t.writers == s.writers
    ensures if q in s.threads then Writer(s.threads[q]) && t.threads[q].bytes == s.threads[q].bytes && t.threads[q].i == s.threads[q].i
            else t.threads[q].i == 0
  {
    hide WriteTurn, ReadTurn, OutsideTurn;
    if WriteTurn(size, s, e, t) { WriteStillAt(size, s, e, t, q); }
    else if ReadTurn(size, s, e, t) { ReadStillAt(size, s, e, t, q); }
    else { OutsideStillAt(s, e, t, q); }
  }

  lemma StoreWriter(size: nat, s: State, p: Proc, t: State, q: Proc)
    requires WritersInv(s) && StoreStep(size, s, p, t) && q in t.threads
    ensures |t.stored| == |t.writers| && WriterOk(t, q, t.threads[q])
  {
    hide Full, Slot, Wrap, Empty, BytesOf;
    assert WriterOk(s, q, s.threads[q]);
    var w := s.threads[p];
    BytesOfNext(s.stored, s.writers, q, w.bytes[w.i], p);
    assert w.bytes[..w.i + 1] == w.bytes[..w.i] + [w.bytes[w.i]];
  }

  lemma StepWriter(size: nat, s: State, e: Event, t: State, q: Proc)
    requires WritersInv(s) && Step(size, s, e, t) && q in t.threads
    ensures |t.stored| == |t.writers| && WriterOk(t, q, t.threads[q])
  {
    if e.Store? {
      StoreWriter(size, s, e.p, t, q);
    } else if Writer(t.threads[q]) {
      StillAt(size, s, e, t, q);
      hide Step, BytesOf;
      if q in s.threads {
        assert WriterOk(s, q, s.threads[q]);
      }
    } else {
      SameStored(size, s, e, t);
    }
  }

  lemma SameStored(size: nat, s: State, e: Event, t: State)
    requires Step(size, s, e, t) && |s.stored| == |s.writers|
    ensures |t.stored| == |t.writers|
  {
    hide Full, Slot, Wrap, Empty;
  }

  lemma StepWriters(size: nat, s: State, e: Event, t: State)
    requires WritersInv(s) && Step(size, s, e, t)
    ensures WritersInv(t)
  {
    SameStored(size, s, e, t);
    hide Step, BytesOf, WriterOk;
    forall q | q in t.threads ensures WriterOk(t, q, t.threads[q]) {
      StepWriter(size, s, e, t, q);
    }
  }

  // ---------------------------------------------------------------------
  // Runs

  ghost predicate IsRun(size: nat, run: seq<State>, events: seq<Event>) {
    && |run| == |events| + 1
    && Init(size, run[0])
    && (forall k :: 0 <= k < |events| ==> Step(size, run[k], events[k], run[k + 1]))
  }

  lemma {:induction false} RunInv(size: nat, run: seq<State>, events: seq<Event>, k: nat)
    requires SizeOk(size) && IsRun(size, run, events) && k < |run|
    ensures RingInv(size, run[k]) && PlaceInv(run[k]) && WritersInv(run[k])
  {
    if k > 0 {
      var j := k - 1;
      RunInv(size, run, events, j);
      StepWriters(size, run[j], events[j], run[j + 1]);
      StepRing(size, run[j], events[j], run[j + 1]);
      StepPlace(size, run[j], events[j], run[j + 1]);
    }
  }

  /** First in, first out: in every state of every run the bytes taken out are the
      first bytes put in, the others are in the ring in order; a write in progress has put
      in exactly the bytes it has got through, in order; and a read in progress has got
      consecutive bytes. */
  lemma Fifo(size: nat, run: seq<State>, events: seq<Event>, k: nat)
    requires SizeOk(size) && IsRun(size, run, events) && k < |run|
    ensures var s := run[k];
            && |s.data| == size && |Waiting(size, s)| <= size
            && s.consumed + Waiting(size, s) == s.stored
            && |s.stored| == |s.writers|
            && (forall p :: p in s.threads && Writer(s.threads[p]) ==>
                  && s.threads[p].i <= |s.threads[p].bytes| && s.threads[p].i <= |BytesOf(s.stored, s.writers, p)|
                  && s.threads[p].bytes[..s.threads[p].i] == Last(BytesOf(s.stored, s.writers, p), s.threads[p].i))
            && forall p :: p in s.threads && s.threads[p].RCopy? ==>
                 |s.threads[p].got| <= |s.consumed| && s.threads[p].got == Last(s.consumed, |s.threads[p].got|)
  {
    RunInv(size, run, events, k);
    WaitingIs(size, run[k]);
    hide BytesOf, Waiting;
    assert forall p :: p in run[k].threads ==> PlaceOk(run[k], p, run[k].threads[p]) && WriterOk(run[k], p, run[k].threads[p]);
  }

  /** What piperead returns: the next bytes of the pipe, as many as asked for or as there
      are, and none only at the end of the file. */
  lemma ReadReturns(size: nat, run: seq<State>, events: seq<Event>, k: nat, p: Proc)
    requires SizeOk(size) && IsRun(size, run, events) && k < |events| && events[k] == ReadDone(p)
    ensures var s := run[k];
            && p in s.threads && s.threads[p].RCopy?
            && var got, n := s.threads[p].got, s.threads[p].n;
            && |got| <= n && |got| <= |s.consumed| <= |s.stored|
            && got == s.stored[|s.consumed| - |got|..|s.consumed|]
            && (|got| < n ==> |s.consumed| == |s.stored|)
            && (got == [] && n > 0 ==> !s.writeopen)
  {
    RunInv(size, run, events, k);
    var s := run[k];
    TestsMean(size, s);
    assert Step(size, run[k], events[k], run[k + 1]);
    assert PlaceOk(s, p, s.threads[p]);
  }

  /** What pipewrite has done when it returns: all bytes are in the ring or taken already,
      after all that p wrote before, unless copyin failed, and then a proper prefix. */
  lemma WriteReturns(size: nat, run: seq<State>, events: seq<Event>, k: nat, p: Proc, fault: bool)
    requires SizeOk(size) && IsRun(size, run, events) && k < |events| && events[k] == WriteDone(p, fault)
    ensures var s := run[k];
            && p in s.threads && s.threads[p].WLoop? && |s.stored| == |s.writers|
            && var bytes, i, mine := s.threads[p].bytes, s.threads[p].i, BytesOf(s.stored, s.writers, p);
            && i <= |bytes| && i <= |mine| && bytes[..i] == Last(mine, i)
            && (!fault ==> |bytes| <= |mine| && bytes == Last(mine, |bytes|))
            && (fault ==> i < |bytes| && s.readopen && p !in s.killed)
  {
    RunInv(size, run, events, k);
    hide RingInv, PlaceInv, BytesOf, Full;
    var s := run[k];
    assert Step(size, run[k], events[k], run[k + 1]);
    assert WriterOk(s, p, s.threads[p]);
    var w := s.threads[p];
    assert w.bytes[..|w.bytes|] == w.bytes;
  }

  /** The call that a process is in. */
  predicate SameCall(a: Thread, b: Thread) {
    if Writer(a) then Writer(b) && b.bytes == a.bytes else !Writer(b) && b.n == a.n
  }

  lemma StepKeepsCall(size: nat, s: State, e: Event, t: State, p: Proc)
    requires Step(size, s, e, t) && p in s.threads && p in t.threads
    ensures SameCall(s.threads[p], t.threads[p])
  {
    hide WriteTurn, ReadTurn, OutsideTurn;
    if WriteTurn(size, s, e, t) {
      WriteKeepsCall(size, s, e, t, p);
    } else if ReadTurn(size, s, e, t) {
      ReadKeepsCall(size, s, e, t, p);
    } else {
      OutsideKeepsCall(s, e, t, p);
    }
  }

  lemma WriteKeepsCall(size: nat, s: State, e: Event, t: State, p: Proc)
    requires WriteTurn(size, s, e, t) && p in s.threads && p in t.threads
    ensures SameCall(s.threads[p], t.threads[p])
  {
    hide Full, Slot, Wrap, Empty;
  }

  lemma ReadKeepsCall(size: nat, s: State, e: Event, t: State, p: Proc)
    requires ReadTurn(size, s, e, t) && p in s.threads && p in t.threads
    ensures SameCall(s.threads[p], t.threads[p])
  {
    hide Full, Slot, Wrap, Empty;
  }

  lemma OutsideKeepsCall(s: State, e: Event, t: State, p: Proc)
    requires OutsideTurn(s, e, t) && p in s.threads && p in t.threads
    ensures SameCall(s.threads[p], t.threads[p])
  {
  }

  lemma {:induction false} RunKeepsCall(size: nat, run: seq<State>, events: seq<Event>, i: nat, j: nat, p: Proc)
    requires IsRun(size, run, events) && i <= j < |run| && forall k :: i <= k <= j ==> p in run[k].threads
    ensures SameCall(run[i].threads[p], run[j].threads[p])
    decreases j
  {
    hide Step;
    if i < j {
      RunKeepsCall(size, run, events, i, j - 1, p);
      StepKeepsCall(size, run[j - 1], events[j - 1], run[j], p);
    }
  }

  /** From call to return: when the write of these bytes returns without a fault they are
      the last that the process has put into the pipe. */
  lemma WriteStores(size: nat, run: seq<State>, events: seq<Event>, i: nat, j: nat, p: Proc)
    requires SizeOk(size) && IsRun(size, run, events) && i < j < |events|
    requires events[i].StartWrite? && events[i].p == p && events[j] == WriteDone(p, false)
    requires forall k :: i < k <= j ==> p in run[k].threads
    ensures var s, bytes := run[j], events[i].bytes;
            |s.stored| == |s.writers| && |bytes| <= |BytesOf(s.stored, s.writers, p)| && bytes == Last(BytesOf(s.stored, s.writers, p), |bytes|)
  {
    hide BytesOf;
    assert Step(size, run[i], events[i], run[i + 1]);
    RunKeepsCall(size, run, events, i + 1, j, p);
    WriteReturns(size, run, events, j, p, false);
  }

  /** And a read returns at most as many bytes as its call asked for: the next of the pipe. */
  lemma ReadGets(size: nat, run: seq<State>, events: seq<Event>, i: nat, j: nat, p: Proc)
    requires SizeOk(size) && IsRun(size, run, events) && i < j < |events|
    requires events[i].StartRead? && events[i].p == p && events[j] == ReadDone(p)
    requires forall k :: i < k <= j ==> p in run[k].threads
    ensures var s := run[j];
            && p in s.threads && s.threads[p].RCopy?
            && var got := s.threads[p].got;
            && |got| <= events[i].n && |got| <= |s.consumed| <= |s.stored|
            && got == s.stored[|s.consumed| - |got|..|s.consumed|]
            && (|got| < events[i].n ==> |s.consumed| == |s.stored|)
  {
    assert Step(size, run[i], events[i], run[i + 1]);
    RunKeepsCall(size, run, events, i + 1, j, p);
    ReadReturns(size, run, events, j, p);
  }

  /** A write gives up, with -1, only when the read end is closed or its process is killed,
      and with bytes left. */
  lemma WriteGivesUp(size: nat, run: seq<State>, events: seq<Event>, k: nat, p: Proc)
    requires SizeOk(size) && IsRun(size, run, events) && k < |events| && (events[k] == WriteClosed(p) || events[k] == WriteKilled(p))
    ensures var s := run[k];
            && p in s.threads && s.threads[p].WLoop? && s.threads[p].i < |s.threads[p].bytes|
            && (s.readopen ==> p in s.killed)
            && run[k + 1].threads == s.threads - {p}
  {
    assert Step(size, run[k], events[k], run[k + 1]);
  }

  /** A read whose copyout fails loses the byte it had just taken, and no other. */
  lemma ReadFaults(size: nat, run: seq<State>, events: seq<Event>, k: nat, p: Proc)
    requires SizeOk(size) && IsRun(size, run, events) && k < |events| && events[k] == Take(p, true)
    ensures var s, t := run[k], run[k + 1];
            && p in s.threads && s.threads[p].RCopy? && p !in t.threads
            && |s.consumed| < |s.stored| && t.consumed == s.consumed + [s.stored[|s.consumed|]]
            && var got := s.threads[p].got;
            && |got| <= |s.consumed| && got == s.stored[|s.consumed| - |got|..|s.consumed|]
  {
    RunInv(size, run, events, k);
    var s := run[k];
    assert Step(size, run[k], events[k], run[k + 1]);
    TakeRing(size, s, p, true, run[k + 1]);
    assert PlaceOk(s, p, s.threads[p]);
  }

  // ---------------------------------------------------------------------
  // Who is woken, and by what

  /** Events that call wakeup(&nread), or wakeup(&nwrite). */
  predicate Wakes(e: Event, reader: bool) {
    if reader then e.WriteSleep? || e.WriteDone? || e.CloseWrite?
    else e.ReadDone? || (e.Take? && e.fault) || e.CloseRead?
  }

  lemma WriteAwakes(size: nat, s: State, e: Event, t: State, q: Proc)
    requires WriteTurn(size, s, e, t) && q in s.threads
    ensures s.threads[q].RAsleep? ==> q in t.threads && t.threads[q] == if Wakes(e, true) then RWait(s.threads[q].n) else s.threads[q]
    ensures s.threads[q].WAsleep? ==> q in t.threads && t.threads[q] == s.threads[q]
  {
    hide Full, Slot, Wrap, Empty;
  }

  lemma ReadAwakes(size: nat, s: State, e: Event, t: State, q: Proc)
    requires ReadTurn(size, s, e, t) && q in s.threads
    ensures s.threads[q].RAsleep? ==> q in t.threads && t.threads[q] == s.threads[q]
    ensures s.threads[q].WAsleep? ==>
      q in t.threads && t.threads[q] == if Wakes(e, false) then WWait(s.threads[q].bytes, s.threads[q].i) else s.threads[q]
  {
    hide Full, Slot, Wrap, Empty;
  }

  /** A process asleep is woken by a wakeup on its channel or by kill, and by nothing else. */
  lemma Awakes(size: nat, s: State, e: Event, t: State, q: Proc)
    requires Step(size, s, e, t) && q in s.threads
    ensures s.threads[q].RAsleep? ==>
      q in t.threads && t.threads[q] == if Wakes(e, true) || e == Kill(q) then RWait(s.threads[q].n) else s.threads[q]
    ensures s.threads[q].WAsleep? ==>
      && q in t.threads
      && t.threads[q] == if Wakes(e, false) || e == Kill(q) then WWait(s.threads[q].bytes, s.threads[q].i) else s.threads[q]
  {
    hide WriteTurn, ReadTurn;
    if WriteTurn(size, s, e, t) {
      WriteAwakes(size, s, e, t, q);
      TurnsApart(size, s, e, t);
    } else if ReadTurn(size, s, e, t) {
      ReadAwakes(size, s, e, t, q);
      TurnsApart(size, s, e, t);
    }
  }

  lemma TurnsApart(size: nat, s: State, e: Event, t: State)
    ensures WriteTurn(size, s, e, t) ==> !Wakes(e, false) && !e.Kill?
    ensures ReadTurn(size, s, e, t) ==> !Wakes(e, true) && !e.Kill?
  {
    hide StoreStep, WriteSleepStep, WriteClosedStep, WriteKilledStep, WriteDoneStep;
    hide ReadSleepStep, ReadKilledStep, ReadBeginStep, TakeStep, ReadDoneStep;
  }

  /** Over runs: it sleeps on until then. */
  lemma {:induction false} SleepsOn(size: nat, run: seq<State>, events: seq<Event>, i: nat, j: nat, q: Proc, reader: bool)
    requires IsRun(size, run, events) && i <= j < |run| && q in run[i].threads
    requires if reader then run[i].threads[q].RAsleep? else run[i].threads[q].WAsleep?
    requires forall k :: i <= k < j ==> !Wakes(events[k], reader) && events[k] != Kill(q)
    ensures q in run[j].threads && run[j].threads[q] == run[i].threads[q]
    decreases j
  {
    hide Step;
    if i < j {
      SleepsOn(size, run, events, i, j - 1, q, reader);
      Awakes(size, run[j - 1], events[j - 1], run[j], q);
    }
  }

  // ---------------------------------------------------------------------
  // Nobody holds the lock for ever at one place

  function Next(size: nat, s: State, p: Proc): Event
    requires p in s.threads
  {
    match s.threads[p]
    case WLoop(bytes, i, _) =>
      if i >= |bytes| then WriteDone(p, false)
      else if !s.readopen then WriteClosed(p)
      else if p in s.killed then WriteKilled(p)
      else if Full(size, s) then WriteSleep(p)
      else Store(p)
    case RTop(n) =>
      if !(Empty(s) && s.writeopen) then ReadBegin(p)
      else if p in s.killed then ReadKilled(p)
      else ReadSleep(p)
    case RCopy(n, got) => if |got| >= n || Empty(s) then ReadDone(p) else Take(p, false)
    case _ => Acquire(p)
  }

  ghost predicate CanStep(size: nat, s: State, e: Event) {
    exists t :: Step(size, s, e, t)
  }

  lemma WriterMoves(size: nat, s: State, p: Proc)
    requires size > 0 && RingInv(size, s) && PlaceInv(s) && s.lock == HeldBy(p) && s.threads[p].WLoop?
    ensures CanStep(size, s, Next(size, s, p))
  {
    hide Full, Slot, Wrap, Empty, RingInv;
    RingData(size, s);
    assert PlaceOk(s, p, s.threads[p]);
    var w := s.threads[p];
    var e := Next(size, s, p);
    if e.WriteDone? {
      assert Step(size, s, WriteDone(p, false), s.(lock := Free, threads := Wakeup(s.threads, true) - {p}));
    } else if e.WriteClosed? {
      assert Step(size, s, WriteClosed(p), s.(lock := Free, threads := s.threads - {p}));
    } else if e.WriteKilled? {
      assert Step(size, s, WriteKilled(p), s.(lock := Free, threads := s.threads - {p}));
    } else if e.WriteSleep? {
      assert Step(size, s, WriteSleep(p), s.(lock := Free, threads := Wakeup(s.threads, true)[p := WAsleep(w.bytes, w.i)]));
    } else {
      assert Step(size, s, Store(p), s.(data := s.data[Slot(s.nwrite, size) := w.bytes[w.i]], nwrite := Wrap(s.nwrite + 1, U32),
                                        threads := s.threads[p := WLoop(w.bytes, w.i + 1, w.woke)],
                                        stored := s.stored + [w.bytes[w.i]], writers := s.writers + [p]));
    }
  }

  lemma RingData(size: nat, s: State)
    requires size > 0 && RingInv(size, s)
    ensures |s.data| == size && 0 <= Slot(s.nwrite, size) < size && 0 <= Slot(s.nread, size) < size
  {
  }

  lemma ReaderMoves(size: nat, s: State, p: Proc)
    requires size > 0 && RingInv(size, s) && PlaceInv(s) && s.lock == HeldBy(p) && (s.threads[p].RTop? || s.threads[p].RCopy?)
    ensures CanStep(size, s, Next(size, s, p))
  {
    hide Full, Slot, Wrap, Empty, RingInv;
    RingData(size, s);
    var r := s.threads[p];
    var e := Next(size, s, p);
    if e.ReadBegin? {
      assert Step(size, s, ReadBegin(p), s.(threads := s.threads[p := RCopy(r.n, [])]));
    } else if e.ReadKilled? {
      assert Step(size, s, ReadKilled(p), s.(lock := Free, threads := s.threads - {p}));
    } else if e.ReadSleep? {
      assert Step(size, s, ReadSleep(p), s.(lock := Free, threads := s.threads[p := RAsleep(r.n)]));
    } else if e.ReadDone? {
      assert Step(size, s, ReadDone(p), s.(lock := Free, threads := Wakeup(s.threads, false) - {p}));
    } else {
      var ch := s.data[Slot(s.nread, size)];
      assert Step(size, s, Take(p, false), s.(nread := Wrap(s.nread + 1, U32), consumed := s.consumed + [ch],
                                              threads := s.threads[p := RCopy(r.n, r.got + [ch])]));
    }
  }

  /** In every reachable state the process that holds the lock can go on, and so can every
      process that wants it when it is free. */
  lemma NeverStuck(size: nat, run: seq<State>, events: seq<Event>, k: nat, p: Proc)
    requires SizeOk(size) && IsRun(size, run, events) && k < |run|
    requires run[k].lock == HeldBy(p) || (run[k].lock == Free && p in run[k].threads && (run[k].threads[p].WWait? || run[k].threads[p].RWait?))
    ensures p in run[k].threads && CanStep(size, run[k], Next(size, run[k], p))
  {
    RunInv(size, run, events, k);
    var s := run[k];
    if s.lock == HeldBy(p) {
      if s.threads[p].WLoop? {
        WriterMoves(size, s, p);
      } else {
        ReaderMoves(size, s, p);
      }
    } else {
      var th := s.threads[p];
      assert Step(size, s, Acquire(p), s.(lock := HeldBy(p), threads := s.threads[p := if th.WWait? then WLoop(th.bytes, th.i, th.i) else RTop(th.n)]));
    }
  }

  predicate ReaderAsleep(s: State) {
    exists q :: q in s.threads && s.threads[q].RAsleep?
  }

  /** No writer is killed while it has stored bytes that readers have not been told of and
      a reader sleeps. */
  ghost predicate NoneKilledEarly(run: seq<State>, events: seq<Event>)
    requires |run| == |events| + 1
  {
    forall k :: 0 <= k < |events| && events[k].WriteKilled? ==> Unannounced(run[k]) <= 0 || !ReaderAsleep(run[k])
  }

  lemma {:induction false} RunQuiet(size: nat, run: seq<State>, events: seq<Event>, k: nat)
    requires SizeOk(size) && IsRun(size, run, events) && NoneKilledEarly(run, events) && k < |run|
    ensures QuietInv(size, run[k])
  {
    if k > 0 {
      var j := k - 1;
      RunQuiet(size, run, events, j);
      RunInv(size, run, events, j);
      assert Step(size, run[j], events[j], run[j + 1]);
      if events[j].WriteKilled? {
        var p := events[j].p;
        assert PlaceOk(run[j], p, run[j].threads[p]);
        KilledExactly(size, run[j], p, run[j + 1]);
      } else {
        StepQuiet(size, run[j], events[j], run[j + 1]);
      }
    }
  }

  /** Whenever the lock is free, readers sleep only on an empty pipe and writers only
      on a full one. */
  lemma SleepersWait(size: nat, run: seq<State>, events: seq<Event>, k: nat, p: Proc)
    requires SizeOk(size) && IsRun(size, run, events) && NoneKilledEarly(run, events) && k < |run|
    requires run[k].lock == Free && p in run[k].threads
    ensures run[k].threads[p].RAsleep? ==> Empty(run[k]) && run[k].writeopen
    ensures run[k].threads[p].WAsleep? ==> Full(size, run[k]) && run[k].readopen
  {
    RunInv(size, run, events, k);
    RunQuiet(size, run, events, k);
    TestsMean(size, run[k]);
    assert Waits(size, run[k], run[k].threads[p]) && PlaceOk(run[k], p, run[k].threads[p]);
  }

  /** Sleepers wait rightly: readers for bytes, writers for room. */
  ghost predicate SleepersRight(size: nat, s: State) {
    forall p :: p in s.threads ==> (s.threads[p].RAsleep? ==> Empty(s)) && (s.threads[p].WAsleep? ==> Full(size, s))
  }

  /** In every state of a run in which the lock is free sleepers wait rightly, if and only
      if no writer was killed with unannounced bytes while a reader slept. */
  lemma SleepersRightIff(size: nat, run: seq<State>, events: seq<Event>)
    requires SizeOk(size) && IsRun(size, run, events)
    ensures (forall k :: 0 <= k < |run| && run[k].lock == Free ==> SleepersRight(size, run[k])) <==> NoneKilledEarly(run, events)
  {
    if NoneKilledEarly(run, events) {
      forall k | 0 <= k < |run| && run[k].lock == Free ensures SleepersRight(size, run[k]) {
        forall p | p in run[k].threads
          ensures run[k].threads[p].RAsleep? ==> Empty(run[k])
          ensures run[k].threads[p].WAsleep? ==> Full(size, run[k])
        {
          SleepersWait(size, run, events, k, p);
        }
      }
    } else {
      var k :| 0 <= k < |events| && events[k].WriteKilled? && Unannounced(run[k]) > 0 && ReaderAsleep(run[k]);
      MissedByte(size, run, events, k);
    }
  }

  /** That reader sleeps on, with bytes in the pipe. */
  lemma MissedByte(size: nat, run: seq<State>, events: seq<Event>, k: nat)
    requires SizeOk(size) && IsRun(size, run, events) && k < |events|
    requires events[k].WriteKilled? && Unannounced(run[k]) > 0 && ReaderAsleep(run[k])
    ensures run[k + 1].lock == Free && !SleepersRight(size, run[k + 1])
  {
    RunInv(size, run, events, k);
    RunInv(size, run, events, k + 1);
    var s, t, p := run[k], run[k + 1], events[k].p;
    assert Step(size, run[k], events[k], run[k + 1]);
    assert PlaceOk(s, p, s.threads[p]);
    TestsMean(size, t);
    var q :| q in s.threads && s.threads[q].RAsleep?;
    assert q in t.threads && t.threads[q].RAsleep?;
  }

  /** The early return of a killed writer keeps this exactly when every byte it stored
      had been announced or no reader sleeps. */
  lemma KilledExactly(size: nat, s: State, p: Proc, t: State)
    requires SizeOk(size) && RingInv(size, s) && PlaceInv(s) && QuietInv(size, s) && WriteKilledStep(s, p, t)
    ensures QuietInv(size, t) <==>
            s.threads[p].woke == s.threads[p].i || forall q :: q in s.threads ==> !s.threads[q].RAsleep?
  {
    assert PlaceOk(s, p, s.threads[p]);
    if s.threads[p].woke == s.threads[p].i {
      StepQuiet(size, s, WriteKilled(p), t);
    } else if q :| q in s.threads && s.threads[q].RAsleep? {
      assert q in t.threads && !Waits(size, t, t.threads[q]);
    } else {
      forall q | q in t.threads ensures Waits(size, t, t.threads[q]) {
        assert Waits(size, s, s.threads[q]);
      }
    }
  }

  lemma Extend(size: nat, run: seq<State>, events: seq<Event>, e: Event, t: State)
    requires IsRun(size, run, events) && Step(size, run[|run| - 1], e, t)
    ensures IsRun(size, run + [t], events + [e])
  {
    var run', events' := run + [t], events + [e];
    forall k | 0 <= k < |events'| ensures Step(size, run'[k], events'[k], run'[k + 1]) {
      if k < |events| {
        assert Step(size, run[k], events[k], run[k + 1]);
      }
    }
  }

  lemma ReaderSleeps(size: nat, s0: State) returns (run: seq<State>, events: seq<Event>)
    requires Init(size, s0) && s0.killed == {}
    ensures IsRun(size, run, events) && |run| > 0
    ensures run[|run| - 1] == s0.(threads := map[0 := RAsleep(1)])
  {
    hide IsRun;
    var s1 := s0.(threads := map[0 := RWait(1)]);
    var s2 := s1.(lock := HeldBy(0), threads := map[0 := RTop(1)]);
    var s3 := s2.(lock := Free, threads := map[0 := RAsleep(1)]);
    FirstState(size, s0);
    Extend(size, [s0], [], StartRead(0, 1), s1);
    Extend(size, [s0] + [s1], [] + [StartRead(0, 1)], Acquire(0), s2);
    run, events := [s0] + [s1] + [s2], [] + [StartRead(0, 1)] + [Acquire(0)];
    Extend(size, run, events, ReadSleep(0), s3);
    run, events := run + [s3], events + [ReadSleep(0)];
  }

  lemma FirstState(size: nat, s: State)
    requires Init(size, s)
    ensures IsRun(size, [s], [])
  {
  }

  /** Then a writer stores the first of two bytes. */
  lemma WriterStores(size: nat, data: seq<Byte>, a: Byte) returns (run: seq<State>, events: seq<Event>)
    requires SizeOk(size) && |data| == size
    ensures IsRun(size, run, events) && |run| > 0
    ensures run[|run| - 1] == State(data[0 := a], 0, 1, true, true, HeldBy(1), map[0 := RAsleep(1), 1 := WLoop([a, a], 1, 0)], {}, [a], [1], [])
  {
    hide IsRun;
    run, events := ReaderSleeps(size, State(data, 0, 0, true, true, Free, map[], {}, [], [], []));
    var s3 := run[|run| - 1];
    var s4 := s3.(threads := s3.threads[1 := WWait([a, a], 0)]);
    Extend(size, run, events, StartWrite(1, [a, a]), s4);
    run, events := run + [s4], events + [StartWrite(1, [a, a])];
    var s5 := s4.(lock := HeldBy(1), threads := s4.threads[1 := WLoop([a, a], 0, 0)]);
    Extend(size, run, events, Acquire(1), s5);
    run, events := run + [s5], events + [Acquire(1)];
    var s6 := s5.(data := data[0 := a], nwrite := 1, stored := [a], writers := [1], threads := s5.threads[1 := WLoop([a, a], 1, 0)]);
    Extend(size, run, events, Store(1), s6);
    run, events := run + [s6], events + [Store(1)];
  }

  /** It does happen: a reader sleeps although a byte is in the pipe. */
  lemma ReaderMissesByte(size: nat, data: seq<Byte>, a: Byte) returns (run: seq<State>, events: seq<Event>)
    requires SizeOk(size) && |data| == size
    ensures IsRun(size, run, events)
    ensures var s := run[|run| - 1];
            s.lock == Free && 0 in s.threads && s.threads[0].RAsleep? && !Empty(s)
  {
    hide IsRun;
    run, events := WriterStores(size, data, a);
    var s6 := run[|run| - 1];
    var s7 := s6.(killed := {1});
    assert s6.threads[1 := s6.threads[1]] == s6.threads;
    Extend(size, run, events, Kill(1), s7);
    run, events := run + [s7], events + [Kill(1)];
    var s8 := s7.(lock := Free, threads := s7.threads - {1});
    Extend(size, run, events, WriteKilled(1), s8);
    run, events := run + [s8], events + [WriteKilled(1)];
  }
}
