/** The request protocol between the virtio driver and its device, for any number of
    processes in virtio_disk_rw, any completion order and wrapping ring indices. */
module VirtioQueue {
  import opened Common
  import opened Modular
  import opened Virtio

  /** One call of virtio_disk_rw. */
  datatype Request = Request(id: nat, b: Buf, sector: int, write: bool)

  datatype Stage =
    | Formatted   // descriptors written, avail->idx not yet advanced
    | Published   // in the avail ring
    | Fetched     // read by the device
    | Performed   // done by the device, status written
    | Used        // in the used ring
    | Completed   // seen by virtio_disk_intr

  datatype Thread =
    | Asking(b: Buf, sector: int, write: bool)
    | Busy(r: Request, i0: int, i1: int, i2: int, stage: Stage)

  datatype Owner = Nobody | Own(p: Proc)

  /** A request as the device read it from memory. */
  datatype Work = Work(r: Request, status: int, done: bool)

  /** `seen` is how far the device has read the avail ring. The last line is history:
      who uses each descriptor and buffer, which request a chain head stands for, whose
      requests wait in the avail ring and in the used ring, what the device performed. */
  datatype State = State(
    free: seq<bool>, desc: seq<Desc>, ops: seq<Op>, info: seq<Info>,
    avail: seq<int>, availIdx: int, used: seq<int>, devUsedIdx: int, usedIdx: int,
    onDisk: set<Buf>, lock: Holder, threads: map<Proc, Thread>,
    seen: int, work: map<int, Work>,
    owner: seq<Owner>, bufOwner: map<Buf, Proc>, reqId: seq<nat>, nextId: nat,
    availQ: seq<Proc>, usedQ: seq<Proc>, performed: set<Request>)

  datatype Event =
    | Start(p: Proc, b: Buf, sector: int, write: bool)
    | Retry(p: Proc)
    | Format(p: Proc)
    | Publish(p: Proc)
    | Fetch
    | Perform(h: int)
    | Push(h: int)
    | Consume
    | Finish(p: Proc)

  predicate Sizes(num: nat, s: State) {
    && |s.free| == |s.desc| == |s.ops| == |s.info| == |s.avail| == |s.used| == |s.owner| == |s.reqId| == num
    && 0 < num && U16 % num == 0
  }

  function Next(x: int): int {
    Wrap(x + 1, U16)
  }

  // ---------------------------------------------------------------------
  // Steps of the driver

  /** b is sleep-locked by its caller, so nobody else passes it to the driver. */
  predicate StartStep(s: State, p: Proc, b: Buf, sector: int, write: bool, t: State) {
    && p !in s.threads && b !in s.bufOwner
    && t == s.(threads := s.threads[p := Asking(b, sector, write)], bufOwner := s.bufOwner[b := p])
  }

  /** alloc3_desc fails, which clears the descriptors it could get; sleep. */
  predicate RetryStep(num: nat, s: State, p: Proc, t: State)
    requires Sizes(num, s)
  {
    && s.lock == Free && p in s.threads && s.threads[p].Asking? && Nth(s.free, 2) == num
    && t == s.(desc := Cleared(s.desc, s.free))
  }

  /** From the successful alloc3_desc to the write into the avail ring. */
  predicate FormatStep(num: nat, s: State, p: Proc, t: State)
    requires Sizes(num, s)
  {
    && s.lock == Free && p in s.threads && s.threads[p].Asking?
    && Nth(s.free, 0) < num && Nth(s.free, 1) < num && Nth(s.free, 2) < num
    && t == Formatting(num, s, p, s.threads[p], Nth(s.free, 0), Nth(s.free, 1), Nth(s.free, 2))
  }

  function Formatting(num: nat, s: State, p: Proc, th: Thread, i0: int, i1: int, i2: int): State
    requires Sizes(num, s) && th.Asking? && 0 <= i0 < num && 0 <= i1 < num && 0 <= i2 < num
  {
    s.(free := Left(s.free, 3),
       desc := s.desc[i0 := Desc(OpHeader(i0), true, false, i1)][i1 := Desc(Data(th.b), true, !th.write, i2)]
                     [i2 := Desc(StatusByte(i0), false, true, 0)],
       ops := s.ops[i0 := Op(th.write, th.sector)],
       info := s.info[i0 := Info(To(th.b), 0xff)],
       avail := s.avail[Slot(s.availIdx, num) := i0],
       onDisk := s.onDisk + {th.b},
       lock := HeldBy(p),
       threads := s.threads[p := Busy(Request(s.nextId, th.b, th.sector, th.write), i0, i1, i2, Formatted)],
       owner := s.owner[i0 := Own(p)][i1 := Own(p)][i2 := Own(p)],
       reqId := s.reqId[i0 := s.nextId],
       nextId := s.nextId + 1)
  }

  function Mark(threads: map<Proc, Thread>, p: Proc, stage: Stage): map<Proc, Thread> {
    if p in threads && threads[p].Busy? then threads[p := threads[p].(stage := stage)] else threads
  }

  /** avail->idx += 1, then sleep. */
  predicate PublishStep(s: State, p: Proc, t: State) {
    && s.lock == HeldBy(p)
    && t == s.(availIdx := Next(s.availIdx), lock := Free,
               threads := Mark(s.threads, p, Published), availQ := s.availQ + [p])
  }

  /** One turn of the loop in virtio_disk_intr. */
  predicate ConsumeStep(num: nat, s: State, t: State)
    requires Sizes(num, s)
  {
    && s.lock == Free && s.usedIdx != s.devUsedIdx
    && var id := s.used[Slot(s.usedIdx, num)];
       && 0 <= id < num && s.info[id].b.To?
       && t == s.(onDisk := s.onDisk - {s.info[id].b.b}, usedIdx := Next(s.usedIdx),
                  threads := if s.usedQ == [] then s.threads else Mark(s.threads, s.usedQ[0], Completed),
                  usedQ := if s.usedQ == [] then [] else s.usedQ[1..])
  }

  /** The end of virtio_disk_rw, once the test b->disk == 1 fails. */
  predicate FinishStep(num: nat, s: State, p: Proc, t: State)
    requires Sizes(num, s)
  {
    && s.lock == Free && p in s.threads && s.threads[p].Busy?
    && var th := s.threads[p];
       && th.r.b !in s.onDisk && 0 <= th.i0 < num
       && var chain := Chain(s.desc, th.i0, num);
          t == s.(info := s.info[th.i0 := s.info[th.i0].(b := NoBuf)],
                  desc := seq(num, i requires 0 <= i < num => if i in chain then ZERO_DESC else s.desc[i]),
                  free := seq(num, i requires 0 <= i < num => s.free[i] || i in chain),
                  threads := s.threads - {p},
                  bufOwner := s.bufOwner - {th.r.b},
                  owner := seq(num, i requires 0 <= i < num => if i in chain then Nobody else s.owner[i]))
  }

  // ---------------------------------------------------------------------
  // Steps of the device

  /** What the device makes of the chain that starts at h. */
  function ReadChain(num: nat, s: State, h: int): Work
    requires Sizes(num, s)
  {
    var none := Work(Request(0, 0, 0, false), -1, false);
    if !(0 <= h < num) then none
    else
      var i1 := s.desc[h].next;
      if !(0 <= i1 < num) then none
      else
        var i2 := s.desc[i1].next;
        if !(0 <= i2 < num) then none
        else if s.desc[h].addr == OpHeader(h) && s.desc[i1].addr.Data? && s.desc[i2].addr.StatusByte?
             && s.desc[i1].devWrites == !s.ops[h].write && s.desc[i2].devWrites then
          Work(Request(s.reqId[h], s.desc[i1].addr.b, s.ops[h].sector, s.ops[h].write), s.desc[i2].addr.i, false)
        else none
  }

  predicate FetchStep(num: nat, s: State, t: State)
    requires Sizes(num, s)
  {
    && s.seen != s.availIdx
    && var h := s.avail[Slot(s.seen, num)];
       t == s.(work := s.work[h := ReadChain(num, s, h)], seen := Next(s.seen),
               threads := if s.availQ == [] then s.threads else Mark(s.threads, s.availQ[0], Fetched),
               availQ := if s.availQ == [] then [] else s.availQ[1..])
  }

  function OwnerOf(num: nat, s: State, h: int): Proc
    requires Sizes(num, s)
  {
    if 0 <= h < num && s.owner[h].Own? then s.owner[h].p else 0
  }

  predicate PerformStep(num: nat, s: State, h: int, t: State)
    requires Sizes(num, s)
  {
    && h in s.work && !s.work[h].done && 0 <= s.work[h].status < num
    && t == s.(performed := s.performed + {s.work[h].r},
               info := s.info[s.work[h].status := s.info[s.work[h].status].(status := 0)],
               work := s.work[h := s.work[h].(done := true)],
               threads := Mark(s.threads, OwnerOf(num, s, h), Performed))
  }

  predicate PushStep(num: nat, s: State, h: int, t: State)
    requires Sizes(num, s)
  {
    && h in s.work && s.work[h].done
    && t == s.(used := s.used[Slot(s.devUsedIdx, num) := h], devUsedIdx := Next(s.devUsedIdx),
               work := s.work - {h},
               threads := Mark(s.threads, OwnerOf(num, s, h), Used),
               usedQ := s.usedQ + [OwnerOf(num, s, h)])
  }

  predicate Step(num: nat, s: State, e: Event, t: State)
    requires Sizes(num, s)
  {
    match e
    case Start(p, b, sector, write) => StartStep(s, p, b, sector, write, t)
    case Retry(p) => RetryStep(num, s, p, t)
    case Format(p) => FormatStep(num, s, p, t)
    case Publish(p) => PublishStep(s, p, t)
    case Fetch => FetchStep(num, s, t)
    case Perform(h) => PerformStep(num, s, h, t)
    case Push(h) => PushStep(num, s, h, t)
    case Consume => ConsumeStep(num, s, t)
    case Finish(p) => FinishStep(num, s, p, t)
  }

  /** virtio_disk_init: all descriptors free, both rings empty. */
  predicate Init(num: nat, s: State) {
    && Sizes(num, s)
    && (forall i :: 0 <= i < num ==> s.free[i] && s.owner[i] == Nobody)
    && s.availIdx == s.seen == s.devUsedIdx == s.usedIdx == 0
    && s.onDisk == {} && s.lock == Free && s.threads == map[] && s.work == map[]
    && s.bufOwner == map[] && s.availQ == s.usedQ == [] && s.performed == {}
  }

  // ---------------------------------------------------------------------
  // Invariant

  /** The chain of a request is laid out in the table and belongs to its process. */
  predicate TableOk(num: nat, s: State, p: Proc, th: Thread)
    requires Sizes(num, s) && th.Busy?
  {
    && Formatted3(s.desc, th.r.b, th.r.write, th.i0, th.i1, th.i2)
    && th.i0 != th.i1 && th.i0 != th.i2 && th.i1 != th.i2
    && s.owner[th.i0] == s.owner[th.i1] == s.owner[th.i2] == Own(p)
    && s.ops[th.i0] == Op(th.r.write, th.r.sector)
    && s.info[th.i0].b == To(th.r.b)
    && s.reqId[th.i0] == th.r.id < s.nextId
    && th.r.b in s.bufOwner && s.bufOwner[th.r.b] == p
  }

  predicate StageOk(num: nat, s: State, p: Proc, th: Thread)
    requires Sizes(num, s) && th.Busy? && 0 <= th.i0 < num
  {
    && (th.r.b in s.onDisk <==> th.stage != Completed)
    && (th.stage in {Performed, Used, Completed} ==> th.r in s.performed && s.info[th.i0].status == 0)
    && match th.stage
       case Formatted => s.lock == HeldBy(p) && s.avail[Slot(s.availIdx, num)] == th.i0
       case Published => p in s.availQ
       case Fetched => th.i0 in s.work && s.work[th.i0] == Work(th.r, th.i0, false)
       case Performed => th.i0 in s.work && s.work[th.i0] == Work(th.r, th.i0, true)
       case Used => p in s.usedQ
       case Completed => true
  }

  predicate ThreadOk(num: nat, s: State, p: Proc)
    requires Sizes(num, s) && p in s.threads
  {
    match s.threads[p]
    case Asking(b, _, _) => b in s.bufOwner && s.bufOwner[b] == p && b !in s.onDisk
    case Busy(_, _, _, _, _) => TableOk(num, s, p, s.threads[p]) && StageOk(num, s, p, s.threads[p])
  }

  /** Every descriptor is free, or in the chain of exactly one process. */
  predicate OwnerOk(num: nat, s: State, i: int)
    requires Sizes(num, s) && 0 <= i < num
  {
    && (s.free[i] <==> s.owner[i] == Nobody)
    && (s.owner[i].Own? ==>
          && s.owner[i].p in s.threads && s.threads[s.owner[i].p].Busy?
          && var th := s.threads[s.owner[i].p]; i in {th.i0, th.i1, th.i2})
  }

  /** The j-th entry of a ring from index `first` on. */
  function Entry(ring: seq<int>, first: int, j: nat): int
    requires |ring| > 0
  {
    ring[Slot(first + j, |ring|)]
  }

  /** The ring holds, from `first` to `last`, the chain heads of the processes of q. */
  predicate QueueOk(num: nat, threads: map<Proc, Thread>, ring: seq<int>, first: int, last: int, q: seq<Proc>, stage: Stage)
    requires |ring| == num > 0
  {
    && 0 <= first < U16 && last == Wrap(first + |q|, U16)
    && Distinct(q)
    && (forall j :: 0 <= j < |q| ==>
          && q[j] in threads && threads[q[j]].Busy? && threads[q[j]].stage == stage
          && Entry(ring, first, j) == threads[q[j]].i0)
  }

  predicate WorkOk(num: nat, s: State, h: int)
    requires Sizes(num, s)
  {
    && 0 <= h < num && s.owner[h].Own? && s.owner[h].p in s.threads
    && var th := s.threads[s.owner[h].p];
       th.Busy? && th.i0 == h && (th.stage == Fetched || th.stage == Performed)
  }

  ghost predicate Inv(num: nat, s: State) {
    && Sizes(num, s)
    && (forall p :: p in s.threads ==> ThreadOk(num, s, p))
    && (forall i :: 0 <= i < num ==> OwnerOk(num, s, i))
    && QueueOk(num, s.threads, s.avail, s.seen, s.availIdx, s.availQ, Published)
    && QueueOk(num, s.threads, s.used, s.usedIdx, s.devUsedIdx, s.usedQ, Used)
    && (forall h :: h in s.work ==> WorkOk(num, s, h))
    && (s.lock.HeldBy? ==> s.lock.p in s.threads && s.threads[s.lock.p].Busy? && s.threads[s.lock.p].stage == Formatted)
    && (forall b :: b in s.onDisk ==> b in s.bufOwner)
    && (forall r :: r in s.performed ==> r.id < s.nextId)
  }

  // ---------------------------------------------------------------------
  // Rings

  lemma {:induction false} Pigeonhole(x: seq<int>, n: nat)
    requires forall j :: 0 <= j < |x| ==> 0 <= x[j] < n
    requires forall i, j :: 0 <= i < j < |x| ==> x[i] != x[j]
    ensures |x| <= n
    decreases n
  {
    if |x| > 0 {
      assert 0 <= x[0] < n;
      if k :| 0 <= k < |x| && x[k] == n - 1 {
        Pigeonhole(x[..k] + x[k + 1..], n - 1);
      } else {
        Pigeonhole(x, n - 1);
      }
    }
  }

  /** A descriptor outside the chains of the queued requests: the ring has room. */
  lemma Room(num: nat, s: State, ring: seq<int>, first: int, last: int, q: seq<Proc>, stage: Stage, x: int)
    requires Sizes(num, s) && |ring| == num && QueueOk(num, s.threads, ring, first, last, q, stage)
    requires forall p :: p in s.threads ==> ThreadOk(num, s, p)
    requires 0 <= x < num && forall j :: 0 <= j < |q| ==> s.owner[x] != Own(q[j])
    ensures |q| < num
  {
    hide Slot, Wrap, StageOk;
    var heads := seq(|q|, j requires 0 <= j < |q| => s.threads[q[j]].i0) + [x];
    forall j | 0 <= j < |q| ensures 0 <= heads[j] < num && s.owner[heads[j]] == Own(q[j]) {
      assert ThreadOk(num, s, q[j]);
    }
    Pigeonhole(heads, num);
  }

  /** Threads outside the queue may change, and ring places outside it too. */
  lemma QueueKept(num: nat, threads: map<Proc, Thread>, threads': map<Proc, Thread>, ring: seq<int>, ring': seq<int>,
                  first: int, last: int, q: seq<Proc>, stage: Stage)
    requires |ring| == |ring'| == num > 0 && QueueOk(num, threads, ring, first, last, q, stage)
    requires forall p :: p in q ==> p in threads && p in threads' && threads'[p] == threads[p]
    requires forall j :: 0 <= j < |q| ==> Entry(ring', first, j) == Entry(ring, first, j)
    ensures QueueOk(num, threads', ring', first, last, q, stage)
  {
    hide Entry, Wrap;
    assert forall j :: 0 <= j < |q| ==> q[j] in q;
  }

  /** Writing the place after the last of n entries leaves the entries alone. */
  lemma WriteAtEnd(ring: seq<int>, first: int, last: int, n: nat, v: int, j: nat)
    requires |ring| > 0 && U16 % |ring| == 0 && last == Wrap(first + n, U16) && j < n < |ring|
    ensures Entry(ring[Slot(last, |ring|) := v], first, j) == Entry(ring, first, j)
  {
    hide Slot, Wrap;
    SlotOfWrapped(first + n, U16, |ring|);
    SlotsApart(first + j, first + n, |ring|);
  }

  lemma LastEntry(ring: seq<int>, first: int, last: int, n: nat)
    requires |ring| > 0 && U16 % |ring| == 0 && last == Wrap(first + n, U16)
    ensures Entry(ring, first, n) == ring[Slot(last, |ring|)]
  {
    SlotOfWrapped(first + n, U16, |ring|);
  }

  lemma QueuePush(num: nat, threads: map<Proc, Thread>, ring: seq<int>, first: int, last: int, q: seq<Proc>, stage: Stage, p: Proc)
    requires |ring| == num > 0 && U16 % num == 0 && QueueOk(num, threads, ring, first, last, q, stage)
    requires p !in q && p in threads && threads[p].Busy? && threads[p].stage == stage
    requires ring[Slot(last, num)] == threads[p].i0
    ensures QueueOk(num, threads, ring, first, Next(last), q + [p], stage)
  {
    hide Slot, Wrap, Entry;
    WrapAdd(first + |q|, 1, U16);
    LastEntry(ring, first, last, |q|);
  }

  lemma EntryAfterPop(ring: seq<int>, first: int, j: nat)
    requires |ring| > 0 && U16 % |ring| == 0
    ensures Entry(ring, Next(first), j) == Entry(ring, first, j + 1)
  {
    hide Slot, Wrap;
    WrapAdd(first + 1, j, U16);
    SlotOfWrapped(first + 1 + j, U16, |ring|);
    SlotOfWrapped(Next(first) + j, U16, |ring|);
  }

  lemma NotEmpty(first: int, last: int, n: nat)
    requires 0 <= first < U16 && last == Wrap(first + n, U16) && first != last
    ensures n > 0
  {
  }

  lemma QueuePop(num: nat, threads: map<Proc, Thread>, ring: seq<int>, first: int, last: int, q: seq<Proc>, stage: Stage)
    requires |ring| == num > 0 && U16 % num == 0 && QueueOk(num, threads, ring, first, last, q, stage) && first != last
    ensures q != [] && q[0] in threads && threads[q[0]].Busy? && threads[q[0]].stage == stage
    ensures ring[Slot(first, num)] == threads[q[0]].i0 && q[0] !in q[1..]
    ensures QueueOk(num, threads, ring, Next(first), last, q[1..], stage)
  {
    hide Slot, Wrap;
    NotEmpty(first, last, |q|);
    assert Entry(ring, first, 0) == threads[q[0]].i0;
    WrapAdd(first + 1, |q| - 1, U16);
    hide Entry;
    forall j | 0 <= j < |q| - 1 ensures Entry(ring, Next(first), j) == threads[q[1..][j]].i0 {
      EntryAfterPop(ring, first, j);
    }
  }

  // ---------------------------------------------------------------------
  // Each step keeps the invariant

  /** A process whose chain, buffer and place in the protocol a step leaves alone. */
  lemma OtherThread(num: nat, s: State, t: State, q: Proc)
    requires Sizes(num, s) && Sizes(num, t) && q in s.threads && q in t.threads && t.threads[q] == s.threads[q]
    requires ThreadOk(num, s, q) && s.performed <= t.performed && s.nextId <= t.nextId
    requires forall i :: 0 <= i < num && s.owner[i] == Own(q) ==>
      t.owner[i] == Own(q) && t.desc[i] == s.desc[i] && t.ops[i] == s.ops[i] && t.info[i] == s.info[i] && t.reqId[i] == s.reqId[i]
    requires forall b :: b in s.bufOwner && s.bufOwner[b] == q ==>
      b in t.bufOwner && t.bufOwner[b] == q && (b in t.onDisk <==> b in s.onDisk)
    requires s.lock == HeldBy(q) ==> t.lock == HeldBy(q) && t.availIdx == s.availIdx && t.avail == s.avail
    requires (q in s.availQ ==> q in t.availQ) && (q in s.usedQ ==> q in t.usedQ)
    requires forall h :: h in s.work && 0 <= h < num && s.owner[h] == Own(q) ==> h in t.work && t.work[h] == s.work[h]
    ensures ThreadOk(num, t, q)
  {
  }

  lemma StartInv(num: nat, s: State, p: Proc, b: Buf, sector: int, write: bool, t: State)
    requires Inv(num, s) && StartStep(s, p, b, sector, write, t)
    ensures Inv(num, t)
  {
    hide StageOk, TableOk, Entry, Wrap;
    forall q | q in t.threads ensures ThreadOk(num, t, q) {
      if q != p {
        OtherThread(num, s, t, q);
      }
    }
    forall i | 0 <= i < num ensures OwnerOk(num, t, i) {
      assert OwnerOk(num, s, i);
    }
    forall h | h in t.work ensures WorkOk(num, t, h) {
      assert WorkOk(num, s, h);
    }
    QueueKept(num, s.threads, t.threads, s.avail, t.avail, s.seen, s.availIdx, s.availQ, Published);
    QueueKept(num, s.threads, t.threads, s.used, t.used, s.usedIdx, s.devUsedIdx, s.usedQ, Used);
  }

  /** A failed attempt leaves the chains of all requests alone. */
  lemma RetryInv(num: nat, s: State, p: Proc, t: State)
    requires Inv(num, s) && RetryStep(num, s, p, t)
    ensures Inv(num, t)
  {
    hide StageOk, TableOk, QueueOk, Nth;
    forall i | 0 <= i < num ensures OwnerOk(num, t, i) && (s.owner[i] != Nobody ==> t.desc[i] == s.desc[i]) {
      assert OwnerOk(num, s, i);
    }
    forall q | q in t.threads ensures ThreadOk(num, t, q) {
      OtherThread(num, s, t, q);
    }
    forall h | h in t.work ensures WorkOk(num, t, h) {
      assert WorkOk(num, s, h);
    }
  }

  lemma FirstThree(num: nat, s: State)
    requires Inv(num, s) && Nth(s.free, 0) < num && Nth(s.free, 1) < num && Nth(s.free, 2) < num
    ensures var i0, i1, i2 := Nth(s.free, 0), Nth(s.free, 1), Nth(s.free, 2);
            && i0 != i1 && i0 != i2 && i1 != i2
            && s.owner[i0] == s.owner[i1] == s.owner[i2] == Nobody
            && forall x :: 0 <= x < num ==> (Left(s.free, 3)[x] <==> s.free[x] && x != i0 && x != i1 && x != i2)
  {
    hide Left, Nth, ThreadOk, QueueOk, WorkOk;
    var idx := [Nth(s.free, 0), Nth(s.free, 1), Nth(s.free, 2)];
    TakenAre(s.free, idx);
    assert idx[0] !in idx[1..] && idx[1] !in idx[2..] && idx[1..] == [idx[1], idx[2]];
    assert OwnerOk(num, s, idx[0]) && OwnerOk(num, s, idx[1]) && OwnerOk(num, s, idx[2]);
    assert forall x :: x in idx <==> x == idx[0] || x == idx[1] || x == idx[2];
  }

  lemma FormatOwn(num: nat, s: State, p: Proc, t: State)
    requires Inv(num, s) && FormatStep(num, s, p, t)
    ensures Sizes(num, t) && p in t.threads && ThreadOk(num, t, p)
  {
    hide Left, Nth, Entry, Wrap, Slot, QueueOk, WorkOk;
    FirstThree(num, s);
    hide OwnerOk;
    assert ThreadOk(num, s, p);
  }

  lemma FormatThread(num: nat, s: State, p: Proc, t: State, q: Proc)
    requires Inv(num, s) && FormatStep(num, s, p, t) && q in t.threads
    ensures Sizes(num, t) && ThreadOk(num, t, q)
  {
    hide Left, Nth, Entry, Wrap, Slot, QueueOk, WorkOk, TableOk, StageOk;
    if q == p {
      FormatOwn(num, s, p, t);
    } else {
      FirstThree(num, s);
      hide OwnerOk;
      assert ThreadOk(num, s, p);
      OtherThread(num, s, t, q);
    }
  }

  lemma FormatOwner(num: nat, s: State, p: Proc, t: State, i: int)
    requires Inv(num, s) && FormatStep(num, s, p, t) && 0 <= i < num
    ensures Sizes(num, t) && OwnerOk(num, t, i)
  {
    hide Left, Nth, Entry, Wrap, Slot, QueueOk, WorkOk, ThreadOk;
    FirstThree(num, s);
    assert OwnerOk(num, s, i);
  }

  lemma FormatQueues(num: nat, s: State, p: Proc, t: State)
    requires Inv(num, s) && FormatStep(num, s, p, t)
    ensures Sizes(num, t)
    ensures QueueOk(num, t.threads, t.avail, t.seen, t.availIdx, t.availQ, Published)
    ensures QueueOk(num, t.threads, t.used, t.usedIdx, t.devUsedIdx, t.usedQ, Used)
  {
    FirstThree(num, s);
    hide Left, Nth, Entry, Wrap, Slot, WorkOk, ThreadOk, OwnerOk;
    var i0 := Nth(s.free, 0);
    Room(num, s, s.avail, s.seen, s.availIdx, s.availQ, Published, i0);
    forall j | 0 <= j < |s.availQ| ensures Entry(t.avail, s.seen, j) == Entry(s.avail, s.seen, j) {
      WriteAtEnd(s.avail, s.seen, s.availIdx, |s.availQ|, i0, j);
    }
    QueueKept(num, s.threads, t.threads, s.avail, t.avail, s.seen, s.availIdx, s.availQ, Published);
    QueueKept(num, s.threads, t.threads, s.used, t.used, s.usedIdx, s.devUsedIdx, s.usedQ, Used);
  }

  lemma FormatInv(num: nat, s: State, p: Proc, t: State)
    requires Inv(num, s) && FormatStep(num, s, p, t)
    ensures Inv(num, t)
  {
    hide Left, Nth, QueueOk, TableOk, StageOk;
    FormatQueues(num, s, p, t);
    forall q | q in t.threads ensures ThreadOk(num, t, q) {
      FormatThread(num, s, p, t, q);
    }
    forall i | 0 <= i < num ensures OwnerOk(num, t, i) {
      FormatOwner(num, s, p, t, i);
    }
    forall h | h in t.work ensures WorkOk(num, t, h) {
      assert WorkOk(num, s, h);
      FirstThree(num, s);
    }
  }

  lemma PublishThread(num: nat, s: State, p: Proc, t: State, q: Proc)
    requires Inv(num, s) && PublishStep(s, p, t) && q in t.threads
    ensures Sizes(num, t) && ThreadOk(num, t, q)
  {
    hide Entry, Wrap, Slot, QueueOk, WorkOk, OwnerOk;
    assert ThreadOk(num, s, p);
    if q != p {
      OtherThread(num, s, t, q);
    }
  }

  lemma PublishInv(num: nat, s: State, p: Proc, t: State)
    requires Inv(num, s) && PublishStep(s, p, t)
    ensures Inv(num, t)
  {
    hide Entry, Wrap, Slot, TableOk;
    assert ThreadOk(num, s, p);
    forall q | q in t.threads ensures ThreadOk(num, t, q) {
      PublishThread(num, s, p, t, q);
    }
    hide ThreadOk;
    forall i | 0 <= i < num ensures OwnerOk(num, t, i) {
      assert OwnerOk(num, s, i);
    }
    forall k | k in t.work ensures WorkOk(num, t, k) {
      assert WorkOk(num, s, k);
    }
    QueueKept(num, s.threads, t.threads, s.avail, t.avail, s.seen, s.availIdx, s.availQ, Published);
    QueuePush(num, t.threads, t.avail, s.seen, s.availIdx, s.availQ, Published, p);
    QueueKept(num, s.threads, t.threads, s.used, t.used, s.usedIdx, s.devUsedIdx, s.usedQ, Used);
  }

  /** What the device reads is the request that was written. */
  lemma ReadsRequest(num: nat, s: State, p: Proc)
    requires Sizes(num, s) && p in s.threads && s.threads[p].Busy? && TableOk(num, s, p, s.threads[p])
    ensures ReadChain(num, s, s.threads[p].i0) == Work(s.threads[p].r, s.threads[p].i0, false)
  {
  }

  lemma FetchThread(num: nat, s: State, t: State, q: Proc)
    requires Inv(num, s) && FetchStep(num, s, t) && q in t.threads
    ensures Sizes(num, t) && ThreadOk(num, t, q)
  {
    hide Entry, Wrap, Slot, ReadChain, WorkOk, OwnerOk, QueueOk, Distinct;
    QueuePop(num, s.threads, s.avail, s.seen, s.availIdx, s.availQ, Published);
    var p := s.availQ[0];
    assert ThreadOk(num, s, p);
    ReadsRequest(num, s, p);
    if q != p {
      assert s.availQ == [p] + s.availQ[1..];
      OtherThread(num, s, t, q);
    }
  }

  lemma FetchInv(num: nat, s: State, t: State)
    requires Inv(num, s) && FetchStep(num, s, t)
    ensures Inv(num, t)
  {
    hide Entry, Wrap, Slot, ReadChain, StageOk;
    QueuePop(num, s.threads, s.avail, s.seen, s.availIdx, s.availQ, Published);
    var p := s.availQ[0];
    assert ThreadOk(num, s, p);
    forall q | q in t.threads ensures ThreadOk(num, t, q) {
      FetchThread(num, s, t, q);
    }
    hide ThreadOk;
    forall i | 0 <= i < num ensures OwnerOk(num, t, i) {
      assert OwnerOk(num, s, i);
    }
    forall h | h in t.work ensures WorkOk(num, t, h) {
      if h != s.threads[p].i0 {
        assert WorkOk(num, s, h);
      }
    }
    QueueKept(num, s.threads, t.threads, s.avail, t.avail, Next(s.seen), s.availIdx, s.availQ[1..], Published);
    QueueKept(num, s.threads, t.threads, s.used, t.used, s.usedIdx, s.devUsedIdx, s.usedQ, Used);
  }

  lemma PerformThread(num: nat, s: State, h: int, t: State, q: Proc)
    requires Inv(num, s) && PerformStep(num, s, h, t) && q in t.threads
    ensures Sizes(num, t) && ThreadOk(num, t, q)
  {
    hide Entry, Wrap, Slot, QueueOk, OwnerOk;
    assert WorkOk(num, s, h);
    hide WorkOk;
    var p := s.owner[h].p;
    assert ThreadOk(num, s, p);
    if q != p {
      OtherThread(num, s, t, q);
    }
  }

  lemma WorkIsOld(num: nat, s: State, h: int)
    requires Inv(num, s) && h in s.work
    ensures s.work[h].r.id < s.nextId
  {
    hide QueueOk, OwnerOk, Slot;
    assert WorkOk(num, s, h);
    assert ThreadOk(num, s, s.owner[h].p);
  }

  lemma PerformInv(num: nat, s: State, h: int, t: State)
    requires Inv(num, s) && PerformStep(num, s, h, t)
    ensures Inv(num, t)
  {
    hide Entry, Wrap, Slot, TableOk, StageOk;
    assert WorkOk(num, s, h);
    WorkIsOld(num, s, h);
    forall q | q in t.threads ensures ThreadOk(num, t, q) {
      PerformThread(num, s, h, t, q);
    }
    hide ThreadOk;
    forall i | 0 <= i < num ensures OwnerOk(num, t, i) {
      assert OwnerOk(num, s, i);
    }
    forall k | k in t.work ensures WorkOk(num, t, k) {
      assert WorkOk(num, s, k);
    }
    QueueKept(num, s.threads, t.threads, s.avail, t.avail, s.seen, s.availIdx, s.availQ, Published);
    QueueKept(num, s.threads, t.threads, s.used, t.used, s.usedIdx, s.devUsedIdx, s.usedQ, Used);
  }

  lemma PushThread(num: nat, s: State, h: int, t: State, q: Proc)
    requires Inv(num, s) && PushStep(num, s, h, t) && q in t.threads
    ensures Sizes(num, t) && ThreadOk(num, t, q)
  {
    hide Entry, Wrap, Slot, QueueOk, OwnerOk;
    assert WorkOk(num, s, h);
    hide WorkOk;
    var p := s.owner[h].p;
    assert ThreadOk(num, s, p);
    if q != p {
      OtherThread(num, s, t, q);
    }
  }

  lemma PushInv(num: nat, s: State, h: int, t: State)
    requires Inv(num, s) && PushStep(num, s, h, t)
    ensures Inv(num, t)
  {
    hide Entry, Wrap, Slot, TableOk, StageOk;
    assert WorkOk(num, s, h);
    forall q | q in t.threads ensures ThreadOk(num, t, q) {
      PushThread(num, s, h, t, q);
    }
    hide ThreadOk;
    forall i | 0 <= i < num ensures OwnerOk(num, t, i) {
      assert OwnerOk(num, s, i);
    }
    forall k | k in t.work ensures WorkOk(num, t, k) {
      assert WorkOk(num, s, k);
    }
    QueueKept(num, s.threads, t.threads, s.avail, t.avail, s.seen, s.availIdx, s.availQ, Published);
    PushQueue(num, s, h, t);
  }

  lemma PushQueue(num: nat, s: State, h: int, t: State)
    requires Inv(num, s) && PushStep(num, s, h, t)
    ensures Sizes(num, t) && QueueOk(num, t.threads, t.used, t.usedIdx, t.devUsedIdx, t.usedQ, Used)
  {
    hide Entry, Wrap, Slot, ThreadOk, OwnerOk;
    assert WorkOk(num, s, h);
    var p := s.owner[h].p;
    Room(num, s, s.used, s.usedIdx, s.devUsedIdx, s.usedQ, Used, h);
    forall j | 0 <= j < |s.usedQ| ensures Entry(t.used, s.usedIdx, j) == Entry(s.used, s.usedIdx, j) {
      WriteAtEnd(s.used, s.usedIdx, s.devUsedIdx, |s.usedQ|, h, j);
    }
    QueueKept(num, s.threads, t.threads, s.used, t.used, s.usedIdx, s.devUsedIdx, s.usedQ, Used);
    QueuePush(num, t.threads, t.used, s.usedIdx, s.devUsedIdx, s.usedQ, Used, p);
  }

  /** virtio_disk_intr finds an unfinished request with its buffer, and status 0. */
  lemma UsedEntry(num: nat, s: State)
    requires Inv(num, s) && s.usedIdx != s.devUsedIdx
    ensures s.usedQ != [] && s.usedQ[0] in s.threads && s.threads[s.usedQ[0]].Busy?
    ensures var id := s.used[Slot(s.usedIdx, num)];
            && 0 <= id < num && id == s.threads[s.usedQ[0]].i0
            && s.info[id].status == 0 && s.info[id].b == To(s.threads[s.usedQ[0]].r.b)
            && s.info[id].b.b in s.onDisk
  {
    hide Entry, Wrap, Slot;
    QueuePop(num, s.threads, s.used, s.usedIdx, s.devUsedIdx, s.usedQ, Used);
    assert ThreadOk(num, s, s.usedQ[0]);
  }

  lemma ConsumeThread(num: nat, s: State, t: State, q: Proc)
    requires Inv(num, s) && ConsumeStep(num, s, t) && q in t.threads
    ensures Sizes(num, t) && ThreadOk(num, t, q)
  {
    hide Entry, Wrap, Slot, WorkOk, OwnerOk, QueueOk, Distinct;
    UsedEntry(num, s);
    QueuePop(num, s.threads, s.used, s.usedIdx, s.devUsedIdx, s.usedQ, Used);
    var p := s.usedQ[0];
    assert ThreadOk(num, s, p);
    if q != p {
      assert s.usedQ == [p] + s.usedQ[1..];
      OtherThread(num, s, t, q);
    }
  }

  lemma ConsumeInv(num: nat, s: State, t: State)
    requires Inv(num, s) && ConsumeStep(num, s, t)
    ensures Inv(num, t)
  {
    hide Entry, Wrap, Slot, TableOk, StageOk;
    QueuePop(num, s.threads, s.used, s.usedIdx, s.devUsedIdx, s.usedQ, Used);
    forall q | q in t.threads ensures ThreadOk(num, t, q) {
      ConsumeThread(num, s, t, q);
    }
    hide ThreadOk;
    forall i | 0 <= i < num ensures OwnerOk(num, t, i) {
      assert OwnerOk(num, s, i);
    }
    forall k | k in t.work ensures WorkOk(num, t, k) {
      assert WorkOk(num, s, k);
    }
    QueueKept(num, s.threads, t.threads, s.avail, t.avail, s.seen, s.availIdx, s.availQ, Published);
    QueueKept(num, s.threads, t.threads, s.used, t.used, Next(s.usedIdx), s.devUsedIdx, s.usedQ[1..], Used);
  }

  /** When virtio_disk_rw finds b->disk == 0 the device has performed this request, and
      free_chain frees three descriptors that are in use. */
  lemma FinishSafe(num: nat, s: State, p: Proc)
    requires Inv(num, s) && p in s.threads && s.threads[p].Busy? && s.threads[p].r.b !in s.onDisk
    ensures var th := s.threads[p];
            && th.stage == Completed && th.r in s.performed
            && 0 <= th.i0 < num && 0 <= th.i1 < num && 0 <= th.i2 < num
            && th.i0 != th.i1 && th.i0 != th.i2 && th.i1 != th.i2
            && Chain(s.desc, th.i0, num) == [th.i0, th.i1, th.i2]
            && !s.free[th.i0] && !s.free[th.i1] && !s.free[th.i2]
  {
    hide QueueOk, WorkOk, Slot;
    assert ThreadOk(num, s, p);
    var th := s.threads[p];
    assert OwnerOk(num, s, th.i0) && OwnerOk(num, s, th.i1) && OwnerOk(num, s, th.i2);
    ChainOfThree(s.desc, th.r.b, th.r.write, th.i0, th.i1, th.i2);
  }

  lemma FinishThread(num: nat, s: State, p: Proc, t: State, q: Proc)
    requires Inv(num, s) && FinishStep(num, s, p, t) && q in t.threads
    ensures Sizes(num, t) && ThreadOk(num, t, q)
  {
    hide Entry, Wrap, Slot, Chain, QueueOk, WorkOk, OwnerOk, StageOk;
    FinishSafe(num, s, p);
    assert ThreadOk(num, s, p);
    OtherThread(num, s, t, q);
  }

  lemma FinishInv(num: nat, s: State, p: Proc, t: State)
    requires Inv(num, s) && FinishStep(num, s, p, t)
    ensures Inv(num, t)
  {
    FinishSafe(num, s, p);
    hide Entry, Wrap, Slot, Chain, StageOk;
    assert ThreadOk(num, s, p);
    forall q | q in t.threads ensures ThreadOk(num, t, q) {
      FinishThread(num, s, p, t, q);
    }
    hide ThreadOk;
    forall i | 0 <= i < num ensures OwnerOk(num, t, i) {
      assert OwnerOk(num, s, i);
    }
    forall k | k in t.work ensures WorkOk(num, t, k) {
      assert WorkOk(num, s, k);
    }
    QueueKept(num, s.threads, t.threads, s.avail, t.avail, s.seen, s.availIdx, s.availQ, Published);
    QueueKept(num, s.threads, t.threads, s.used, t.used, s.usedIdx, s.devUsedIdx, s.usedQ, Used);
  }

  lemma StepInv(num: nat, s: State, e: Event, t: State)
    requires Inv(num, s) && Step(num, s, e, t)
    ensures Inv(num, t)
  {
    match e
    case Start(p, b, sector, write) => StartInv(num, s, p, b, sector, write, t);
    case Retry(p) => RetryInv(num, s, p, t);
    case Format(p) => FormatInv(num, s, p, t);
    case Publish(p) => PublishInv(num, s, p, t);
    case Fetch => FetchInv(num, s, t);
    case Perform(h) => PerformInv(num, s, h, t);
    case Push(h) => PushInv(num, s, h, t);
    case Consume => ConsumeInv(num, s, t);
    case Finish(p) => FinishInv(num, s, p, t);
  }

  // ---------------------------------------------------------------------
  // Runs

  ghost predicate IsRun(num: nat, run: seq<State>, events: seq<Event>) {
    && |run| == |events| + 1
    && (forall k :: 0 <= k < |run| ==> Sizes(num, run[k]))
    && Init(num, run[0])
    && (forall k :: 0 <= k < |events| ==> Step(num, run[k], events[k], run[k + 1]))
  }

  lemma {:induction false} RunInv(num: nat, run: seq<State>, events: seq<Event>, k: nat)
    requires IsRun(num, run, events) && k < |run|
    ensures Inv(num, run[k])
  {
    hide Step;
    if k == 0 {
      InitInv(num, run[0]);
    } else {
      var j := k - 1;
      RunInv(num, run, events, j);
      StepInv(num, run[j], events[j], run[j + 1]);
    }
  }

  lemma InitInv(num: nat, s: State)
    requires Init(num, s)
    ensures Inv(num, s)
  {
    assert forall i :: 0 <= i < num ==> OwnerOk(num, s, i);
  }

  /** In every reachable state: each descriptor is free or in the chain of exactly one
      request; each entry of the used ring that the driver has not yet seen names an
      unfinished request with its buffer and a good status; and a caller that finds its
      buffer released returns only after the device performed that very request, with
      free_desc finding all three descriptors in use. */
  lemma RunSafe(num: nat, run: seq<State>, events: seq<Event>, k: nat)
    requires IsRun(num, run, events) && k < |run|
    ensures var s := run[k];
            && (forall i :: 0 <= i < num ==> OwnerOk(num, s, i))
            && (s.usedIdx != s.devUsedIdx ==>
                  var id := s.used[Slot(s.usedIdx, num)];
                  0 <= id < num && s.info[id].status == 0 && s.info[id].b.To? && s.info[id].b.b in s.onDisk)
            && (forall p :: p in s.threads && s.threads[p].Busy? && s.threads[p].r.b !in s.onDisk ==>
                  s.threads[p].r in s.performed && 0 <= s.threads[p].i0 < num &&
                  forall i :: i in Chain(s.desc, s.threads[p].i0, num) ==> 0 <= i < num && !s.free[i])
  {
    hide IsRun, Chain, Slot;
    RunInv(num, run, events, k);
    var s := run[k];
    if s.usedIdx != s.devUsedIdx {
      UsedEntry(num, s);
    }
    forall p | p in s.threads && s.threads[p].Busy? && s.threads[p].r.b !in s.onDisk
      ensures s.threads[p].r in s.performed && 0 <= s.threads[p].i0 < num
      ensures forall i :: i in Chain(s.desc, s.threads[p].i0, num) ==> 0 <= i < num && !s.free[i]
    {
      FinishSafe(num, s, p);
    }
  }

  /** A request is new when it is made, so "performed" can only mean this call of it. */
  lemma RequestIsNew(num: nat, s: State, p: Proc, t: State)
    requires Inv(num, s) && FormatStep(num, s, p, t)
    ensures t.threads[p].Busy? && t.threads[p].r !in s.performed
  {
    hide QueueOk, WorkOk, OwnerOk, ThreadOk;
  }

  /** th is a call of virtio_disk_rw with these arguments; its request, once made, has a
      number from `first` on. */
  predicate Serves(th: Thread, b: Buf, sector: int, write: bool, first: nat) {
    match th
    case Asking(b', sector', write') => b' == b && sector' == sector && write' == write
    case Busy(r, _, _, _, _) => r.b == b && r.sector == sector && r.write == write && r.id >= first
  }

  lemma StepServes(num: nat, s: State, e: Event, t: State, p: Proc, b: Buf, sector: int, write: bool, first: nat)
    requires Sizes(num, s) && Step(num, s, e, t) && p in s.threads && p in t.threads
    requires Serves(s.threads[p], b, sector, write, first) && first <= s.nextId
    ensures Serves(t.threads[p], b, sector, write, first) && first <= t.nextId
  {
    hide Nth, Left, Slot, Wrap, Chain, ReadChain, OwnerOf, Cleared;
  }

  lemma {:induction false} RunServes(num: nat, run: seq<State>, events: seq<Event>, i: nat, j: nat, p: Proc)
    requires IsRun(num, run, events) && i < j < |run| && events[i].Start? && events[i].p == p
    requires forall k :: i < k <= j ==> p in run[k].threads
    ensures Serves(run[j].threads[p], events[i].b, events[i].sector, events[i].write, run[i].nextId) && run[i].nextId <= run[j].nextId
    decreases j
  {
    assert Step(num, run[i], events[i], run[i + 1]);
    hide Step;
    var k := j - 1;
    if i < k {
      RunServes(num, run, events, i, k, p);
      StepServes(num, run[k], events[k], run[j], p, events[i].b, events[i].sector, events[i].write, run[i].nextId);
    }
  }

  lemma OldRequests(num: nat, s: State, r: Request)
    requires Inv(num, s)
    ensures r in s.performed ==> r.id < s.nextId
  {
    hide QueueOk, WorkOk, OwnerOk, ThreadOk;
  }

  /** When virtio_disk_rw returns, the device has performed a request with the buffer, the
      sector and the direction of this call, and it did so during the call. */
  lemma CallPerformed(num: nat, run: seq<State>, events: seq<Event>, i: nat, j: nat, p: Proc)
    requires IsRun(num, run, events) && i < j < |events| && events[i].Start? && events[i].p == p && events[j] == Finish(p)
    requires forall k :: i < k <= j ==> p in run[k].threads
    ensures run[j].threads[p].Busy?
    ensures var r := run[j].threads[p].r;
            && r in run[j].performed && r !in run[i].performed
            && r.b == events[i].b && r.sector == events[i].sector && r.write == events[i].write
  {
    RunServes(num, run, events, i, j, p);
    assert Step(num, run[j], events[j], run[j + 1]);
    hide Inv, Chain;
    RunInv(num, run, events, i);
    RunInv(num, run, events, j);
    FinishSafe(num, run[j], p);
    OldRequests(num, run[i], run[j].threads[p].r);
  }
}
