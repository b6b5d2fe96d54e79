/** fork, exit, wait, reparent, kill and wakeup1 (kernel/proc.c) as interleaved steps
    of kernel threads at lock granularity. p->parent is read without p->lock in wait
    and reparent, as the code does. A thread that has called sched keeps p->lock until
    the scheduler releases it (Drop); the scheduler takes it again to resume. */
module ExitWait {
  import opened ProcTable

  /** Why a thread called sched. */
  datatype Why = Fresh | Yielded | SleptElsewhere | SleptInWait | Died

  datatype Pc =
    | NoThread
    | User                                   // no lock held
    | Off(why: Why)                          // switched out, or about to be
    | Back(why: Why)                         // switched in again, own lock held
    | OwnLock                                // yield or sleep: own lock held
    | Kill(q: Pid)                           // kill: q's lock held
    | ForkLocked(np: Pid)                    // fork: np's lock held, np UNUSED
    | ForkParent(np: Pid)                    // fork: np->parent = p done
    | WaitScan(i: nat, kids: bool)           // wait: own lock held, at proc[i]
    | WaitChild(i: nat, kids: bool)          // wait: proc[i]'s lock held as well
    | ExitStart                              // exit: files closed
    | ExitInit                               // exit: init's lock held
    | ExitWoke                               // exit: init woken and unlocked
    | ExitSelf                               // exit: own lock held, to read p->parent
    | ExitRead(orig: Pid)                    // exit: original_parent read, own lock released
    | ExitParent(orig: Pid)                  // exit: original_parent's lock held
    | Reparent(orig: Pid, i: nat)            // exit: both locks held, reparent at proc[i]
    | ReparentChild(orig: Pid, i: nat)       // reparent: proc[i]'s lock held as well
    | ExitWoken(orig: Pid)                   // exit: wakeup1(original_parent) done
    | ExitZombie(orig: Pid)                  // exit: state = ZOMBIE

  /** `inWait` is p->chan == p, the channel only wait sleeps on. */
  datatype Proc = Proc(state: PState, parent: Option<Pid>, inWait: bool, killed: bool, lock: Option<Pid>, pc: Pc)

  /** The process table and the slot of initproc. */
  datatype State = State(procs: seq<Proc>, init: Pid)

  /** The locks thread p holds. */
  predicate Holds(s: State, p: Pid, q: Pid)
    requires p < |s.procs|
  {
    match s.procs[p].pc
    case Back(_) => q == p
    case OwnLock => q == p
    case Kill(r) => q == r
    case ForkLocked(np) => q == np
    case ForkParent(np) => q == np
    case WaitScan(_, _) => q == p
    case WaitChild(i, _) => q == p || q == i
    case ExitInit => q == s.init
    case ExitSelf => q == p
    case ExitParent(orig) => q == orig
    case Reparent(orig, _) => q == p || q == orig
    case ReparentChild(orig, i) => q == p || q == orig || q == i
    case ExitWoken(orig) => q == p || q == orig
    case ExitZombie(orig) => q == p || q == orig
    case _ => false
  }

  datatype Event =
    | Drop              // scheduler: release(&p->lock) after the switch
    | Dispatch          // scheduler: acquire, RUNNABLE, so RUNNING, swtch
    | Continue          // the thread goes on after sched
    | LockSelf          // yield, sleep: acquire(&p->lock)
    | YieldNow          // yield: RUNNABLE, sched
    | SleepNow          // sleep on another channel: SLEEPING, sched
    | KillLock(q: Pid)  // kill: acquire
    | KillDone          // kill: killed = 1; wake if SLEEPING; release
    | ForkLock(np: Pid) // allocproc: acquire, UNUSED
    | ForkFail          // fork: release without success
    | ForkSetParent     // fork: np->parent = p
    | ForkDone          // fork: RUNNABLE, release
    | WaitStart         // wait: acquire(&p->lock)
    | WaitSkip          // wait: proc[i] is no child
    | WaitLock          // wait: proc[i] is a child; acquire
    | WaitAlive         // wait: child is no zombie; release
    | WaitFree          // wait: freeproc(child), release both, return
    | WaitCopyFails     // wait: copyout of the status failed; release both, return
    | WaitReturn        // wait: no children, or killed; release, return
    | WaitSleep         // wait: sleep(p, &p->lock)
    | ExitBegin         // exit: p is not init
    | ExitLockInit | ExitWakeInit | ExitLockSelf | ExitReadParent | ExitLockParent | ExitLockBoth
    | ReparentSkip      // reparent: proc[i] is no child
    | ReparentLock      // reparent: proc[i] is a child; acquire
    | ReparentSet       // reparent: parent = initproc; release
    | ExitWake          // exit: wakeup1(original_parent)
    | ExitSetZombie     // exit: ZOMBIE
    | ExitUnlockParent  // exit: release(&original_parent->lock), sched

  predicate Free(s: State, q: Pid) {
    q < |s.procs| && s.procs[q].lock == None
  }

  function Set(s: State, p: Pid, x: Proc): State
    requires p < |s.procs|
  {
    s.(procs := s.procs[p := x])
  }

  function Goto(s: State, p: Pid, pc: Pc): State
    requires p < |s.procs|
  {
    Set(s, p, s.procs[p].(pc := pc))
  }

  /** acquire(&q->lock) by p, then continue at pc. */
  function Acquire(s: State, p: Pid, q: Pid, pc: Pc): State
    requires p < |s.procs| && q < |s.procs|
  {
    Goto(Set(s, q, s.procs[q].(lock := Some(p))), p, pc)
  }

  function Release(s: State, p: Pid, q: Pid, pc: Pc): State
    requires p < |s.procs| && q < |s.procs|
  {
    Goto(Set(s, q, s.procs[q].(lock := None)), p, pc)
  }

  /** wakeup1(q) */
  function Wake1(s: State, q: Pid): State
    requires q < |s.procs|
  {
    if s.procs[q].inWait && s.procs[q].state.Sleeping? then Set(s, q, s.procs[q].(state := Runnable)) else s
  }

  predicate SchedStep(s: State, p: Pid, e: Event, t: State)
    requires p < |s.procs|
  {
    var x := s.procs[p];
    match e
    case Drop => x.pc.Off? && x.lock == Some(p) && t == Set(s, p, x.(lock := None))
    case Dispatch =>
      && x.pc.Off? && x.lock == None && x.state.Runnable?
      && t == Set(s, p, x.(lock := Some(p), state := Running, pc := Back(x.pc.why)))
    case Continue =>
      && x.pc.Back?
      && (match x.pc.why
          case SleptInWait => t == Set(s, p, x.(inWait := false, pc := WaitScan(0, false)))
          case Died => false
          case _ => t == Set(s, p, x.(lock := None, pc := User)))
    case LockSelf => x.pc.User? && Free(s, p) && t == Acquire(s, p, p, OwnLock)
    case YieldNow => x.pc.OwnLock? && t == Set(s, p, x.(state := Runnable, pc := Off(Yielded)))
    case SleepNow => x.pc.OwnLock? && t == Set(s, p, x.(state := Sleeping, pc := Off(SleptElsewhere)))
    case _ => false
  }

  predicate KillStep(s: State, p: Pid, e: Event, t: State)
    requires p < |s.procs|
  {
    var x := s.procs[p];
    match e
    case KillLock(q) => x.pc.User? && Free(s, q) && t == Acquire(s, p, q, Kill(q))
    case KillDone =>
      && x.pc.Kill? && x.pc.q < |s.procs|
      && var q := s.procs[x.pc.q];
         t == Release(Set(s, x.pc.q, q.(killed := true, state := if q.state.Sleeping? then Runnable else q.state)), p, x.pc.q, User)
    case _ => false
  }

  predicate ForkStep(s: State, p: Pid, e: Event, t: State)
    requires p < |s.procs|
  {
    var x := s.procs[p];
    match e
    case ForkLock(np) =>
      x.pc.User? && Free(s, np) && s.procs[np].state.Unused? && t == Acquire(s, p, np, ForkLocked(np))
    case ForkFail => x.pc.ForkLocked? && x.pc.np < |s.procs| && t == Release(s, p, x.pc.np, User)
    case ForkSetParent =>
      && x.pc.ForkLocked? && x.pc.np < |s.procs|
      && t == Goto(Set(s, x.pc.np, s.procs[x.pc.np].(parent := Some(p))), p, ForkParent(x.pc.np))
    case ForkDone =>
      && x.pc.ForkParent? && x.pc.np < |s.procs|
      && t == Goto(Set(s, x.pc.np, s.procs[x.pc.np].(state := Runnable, lock := None, pc := Off(Fresh))), p, User)
    case _ => false
  }

  predicate WaitStep(s: State, p: Pid, e: Event, t: State)
    requires p < |s.procs|
  {
    var x := s.procs[p];
    var pc := x.pc;
    match e
    case WaitStart => pc.User? && Free(s, p) && t == Acquire(s, p, p, WaitScan(0, false))
    case WaitSkip =>
      && pc.WaitScan? && pc.i < |s.procs| && s.procs[pc.i].parent != Some(p)
      && t == Goto(s, p, WaitScan(pc.i + 1, pc.kids))
    case WaitLock =>
      && pc.WaitScan? && pc.i < |s.procs| && s.procs[pc.i].parent == Some(p) && Free(s, pc.i)
      && t == Acquire(s, p, pc.i, WaitChild(pc.i, true))
    case WaitAlive =>
      && pc.WaitChild? && pc.i < |s.procs| && !s.procs[pc.i].state.Zombie?
      && t == Release(s, p, pc.i, WaitScan(pc.i + 1, pc.kids))
    case _ => false
  }

  predicate ReturnStep(s: State, p: Pid, e: Event, t: State)
    requires p < |s.procs|
  {
    var x := s.procs[p];
    var pc := x.pc;
    match e
    case WaitFree =>
      && pc.WaitChild? && pc.i < |s.procs| && s.procs[pc.i].state.Zombie?
      && t == Release(Set(s, pc.i, Proc(Unused, None, false, false, None, NoThread)), p, p, User)
    case WaitCopyFails =>
      && pc.WaitChild? && pc.i < |s.procs| && s.procs[pc.i].state.Zombie?
      && t == Release(Set(s, pc.i, s.procs[pc.i].(lock := None)), p, p, User)
    case WaitReturn => pc.WaitScan? && pc.i == |s.procs| && (!pc.kids || x.killed) && t == Release(s, p, p, User)
    case WaitSleep =>
      && pc.WaitScan? && pc.i == |s.procs| && pc.kids && !x.killed
      && t == Set(s, p, x.(inWait := true, state := Sleeping, pc := Off(SleptInWait)))
    case _ => false
  }

  predicate ExitStep(s: State, p: Pid, e: Event, t: State)
    requires p < |s.procs|
  {
    var x := s.procs[p];
    match e
    case ExitBegin => x.pc.User? && p != s.init && t == Goto(s, p, ExitStart)
    case ExitLockInit => x.pc.ExitStart? && Free(s, s.init) && t == Acquire(s, p, s.init, ExitInit)
    case ExitWakeInit => x.pc.ExitInit? && s.init < |s.procs| && t == Release(Wake1(s, s.init), p, s.init, ExitWoke)
    case ExitLockSelf => x.pc.ExitWoke? && Free(s, p) && t == Acquire(s, p, p, ExitSelf)
    case _ => false
  }

  predicate OrigStep(s: State, p: Pid, e: Event, t: State)
    requires p < |s.procs|
  {
    var x := s.procs[p];
    match e
    case ExitReadParent => x.pc.ExitSelf? && x.parent.Some? && t == Release(s, p, p, ExitRead(x.parent.value))
    case ExitLockParent => x.pc.ExitRead? && Free(s, x.pc.orig) && t == Acquire(s, p, x.pc.orig, ExitParent(x.pc.orig))
    case ExitLockBoth => x.pc.ExitParent? && Free(s, p) && t == Acquire(s, p, p, Reparent(x.pc.orig, 0))
    case _ => false
  }

  /** The part of exit that runs with both locks held: reparent, and the rest. */
  predicate ReparentStep(s: State, p: Pid, e: Event, t: State)
    requires p < |s.procs|
  {
    var x := s.procs[p];
    match e
    case ReparentSkip =>
      && x.pc.Reparent? && x.pc.i < |s.procs| && s.procs[x.pc.i].parent != Some(p)
      && t == Goto(s, p, Reparent(x.pc.orig, x.pc.i + 1))
    case ReparentLock =>
      && x.pc.Reparent? && x.pc.i < |s.procs| && s.procs[x.pc.i].parent == Some(p) && Free(s, x.pc.i)
      && t == Acquire(s, p, x.pc.i, ReparentChild(x.pc.orig, x.pc.i))
    case ReparentSet =>
      && x.pc.ReparentChild? && x.pc.i < |s.procs|
      && t == Release(Set(s, x.pc.i, s.procs[x.pc.i].(parent := Some(s.init))), p, x.pc.i, Reparent(x.pc.orig, x.pc.i + 1))
    case _ => false
  }

  predicate LastStep(s: State, p: Pid, e: Event, t: State)
    requires p < |s.procs|
  {
    var x := s.procs[p];
    match e
    case ExitWake =>
      && x.pc.Reparent? && x.pc.i == |s.procs| && x.pc.orig < |s.procs|
      && t == Goto(Wake1(s, x.pc.orig), p, ExitWoken(x.pc.orig))
    case ExitSetZombie => x.pc.ExitWoken? && t == Set(s, p, x.(state := Zombie, pc := ExitZombie(x.pc.orig)))
    case ExitUnlockParent => x.pc.ExitZombie? && x.pc.orig < |s.procs| && t == Release(s, p, x.pc.orig, Off(Died))
    case _ => false
  }

  predicate Step(s: State, p: Pid, e: Event, t: State) {
    && p < |s.procs|
    && (|| SchedStep(s, p, e, t) || KillStep(s, p, e, t) || ForkStep(s, p, e, t) || WaitStep(s, p, e, t)
        || ReturnStep(s, p, e, t) || ExitStep(s, p, e, t) || OrigStep(s, p, e, t)
        || ReparentStep(s, p, e, t) || LastStep(s, p, e, t))
  }

  /** After userinit: only init exists. */
  predicate Init(s: State) {
    && s.init < |s.procs|
    && forall p :: 0 <= p < |s.procs| ==>
         s.procs[p] == if p == s.init then Proc(Runnable, None, false, false, None, Off(Fresh))
                       else Proc(Unused, None, false, false, None, NoThread)
  }

  // ---------------------------------------------------------------------
  // Invariant

  /** Each lock is held by exactly the thread whose position says so; a thread that
      is being switched out still owns its lock until Drop. */
  ghost predicate LocksOk(s: State) {
    && (forall p, q :: 0 <= p < |s.procs| && 0 <= q < |s.procs| && Holds(s, p, q) ==> s.procs[q].lock == Some(p))
    && (forall q :: 0 <= q < |s.procs| && s.procs[q].lock.Some? ==> HolderOk(s, s.procs[q].lock.value, q))
  }

  predicate HolderOk(s: State, p: Pid, q: Pid) {
    p < |s.procs| && (Holds(s, p, q) || (p == q && s.procs[p].pc.Off?))
  }

  predicate OwnLockOk(s: State, p: Pid, q: Pid)
    requires p < |s.procs| && q < |s.procs|
  {
    && (Holds(s, p, q) ==> s.procs[q].lock == Some(p))
    && (s.procs[q].lock == Some(p) ==> Holds(s, p, q) || (p == q && s.procs[p].pc.Off?))
  }

  /** What the position of thread p says about its own process. */
  ghost predicate StateOk(s: State, p: Pid)
    requires p < |s.procs|
  {
    var x := s.procs[p];
    match x.pc
    case NoThread => x.state.Unused?
    case Off(why) =>
      if why.Died? then x.state.Zombie?
      else (x.inWait <==> why.SleptInWait?) && (x.state.Sleeping? || x.state.Runnable?)
    case Back(why) => x.state.Running? && !why.Died? && (x.inWait <==> why.SleptInWait?)
    case ExitZombie(_) => x.state.Zombie? && !x.inWait
    case _ => x.state.Running? && !x.inWait
  }

  predicate Exiting(pc: Pc) {
    || pc.ExitStart? || pc.ExitInit? || pc.ExitWoke? || pc.ExitSelf? || HasOrig(pc)
  }

  /** exit has read original_parent. */
  predicate HasOrig(pc: Pc) {
    pc.ExitRead? || pc.ExitParent? || pc.Reparent? || pc.ReparentChild? || pc.ExitWoken? || pc.ExitZombie?
  }

  /** The other slots the position of thread p refers to. */
  ghost predicate RefsOk(s: State, p: Pid)
    requires p < |s.procs|
  {
    && (Exiting(s.procs[p].pc) ==> p != s.init)
    && (HasOrig(s.procs[p].pc) ==> s.procs[p].pc.orig < |s.procs| && s.procs[p].pc.orig != p)
    && match s.procs[p].pc
       case Kill(q) => q < |s.procs|
       case ForkLocked(np) => np < |s.procs| && np != p && s.procs[np].state.Unused? && s.procs[np].parent == None
       case ForkParent(np) => np < |s.procs| && np != p && s.procs[np].state.Unused? && s.procs[np].parent == Some(p)
       case WaitScan(i, _) => i <= |s.procs|
       case WaitChild(i, _) => i < |s.procs| && i != p && s.procs[i].parent == Some(p)
       case Reparent(_, i) => i <= |s.procs|
       case ReparentChild(orig, i) => i < |s.procs| && i != p && i != orig && s.procs[i].parent == Some(p)
       case _ => true
  }

  /** original_parent is the parent, unless the parent has given p to init since. */
  ghost predicate OrigOk(s: State, p: Pid)
    requires p < |s.procs|
  {
    var x := s.procs[p];
    HasOrig(x.pc) ==> x.parent == Some(x.pc.orig) || x.parent == Some(s.init)
  }

  /** p is past the reparent scan of slot j. */
  predicate GivenAway(s: State, p: Pid, j: Pid)
    requires p < |s.procs|
  {
    match s.procs[p].pc
    case Reparent(_, i) => j < i
    case ReparentChild(_, i) => j < i
    case ExitWoken(_) => true
    case ExitZombie(_) => true
    case _ => s.procs[p].state.Zombie? || s.procs[p].state.Unused?
  }

  /** The parent link of slot j. */
  ghost predicate ParentOk(s: State, j: Pid)
    requires j < |s.procs|
  {
    var x := s.procs[j];
    && (x.parent.Some? ==>
          && x.parent.value < |s.procs| && x.parent.value != j
          && !GivenAway(s, x.parent.value, j))
    && (j != s.init && !x.state.Unused? ==> x.parent.Some?)
    && (j == s.init ==> x.parent == None && !x.state.Unused? && !x.state.Zombie?)
    && (x.state.Unused? ==> !x.inWait && x.pc.NoThread?)
    && (x.state.Unused? && x.parent.Some? ==> s.procs[x.parent.value].pc == ForkParent(j))
  }

  /** q's wait has looked at slot j in this scan, or q sleeps in wait. */
  predicate Checked(s: State, q: Pid, j: Pid)
    requires q < |s.procs|
  {
    match s.procs[q].pc
    case WaitScan(i, _) => j < i
    case WaitChild(i, _) => j < i
    case _ => s.procs[q].inWait && s.procs[q].state.Sleeping?
  }

  /** A zombie's parent, unless it is init, is not asleep in wait, nor past it. */
  ghost predicate ZombieSeen(s: State, j: Pid)
    requires j < |s.procs|
  {
    var x := s.procs[j];
    x.state.Zombie? && x.parent.Some? && x.parent.value != s.init && x.parent.value < |s.procs| ==>
      !Checked(s, x.parent.value, j)
  }

  /** After wakeup1, while original_parent's lock is held, it does not sleep in wait. */
  ghost predicate WokenOk(s: State, p: Pid)
    requires p < |s.procs|
  {
    s.procs[p].pc.ExitWoken? && s.procs[p].pc.orig < |s.procs| ==>
      !(s.procs[s.procs[p].pc.orig].inWait && s.procs[s.procs[p].pc.orig].state.Sleeping?)
  }

  ghost predicate SlotOk(s: State, j: Pid)
    requires j < |s.procs|
  {
    StateOk(s, j) && RefsOk(s, j) && OrigOk(s, j) && ParentOk(s, j) && ZombieSeen(s, j) && WokenOk(s, j)
  }

  ghost predicate Inv(s: State) {
    && s.init < |s.procs|
    && LocksOk(s)
    && forall j :: 0 <= j < |s.procs| ==> SlotOk(s, j)
  }

  lemma InitInv(s: State)
    requires Init(s)
    ensures Inv(s)
  {
  }

  // ---------------------------------------------------------------------
  // What a step of thread p can do

  /** p is in exit and wakes j if j sleeps in wait: init first, its parent later. */
  predicate WakesWaiter(s: State, p: Pid, j: Pid)
    requires p < |s.procs|
  {
    match s.procs[p].pc
    case ExitInit => j == s.init
    case Reparent(orig, i) => j == orig && i == |s.procs|
    case _ => false
  }

  /** To the slot of another process: nothing, take its lock, or, holding it, one of
      the few changes of kill, wakeup1, fork, reparent and freeproc. */
  ghost predicate Effect(s: State, p: Pid, t: State, j: Pid)
    requires p < |s.procs| == |t.procs| && j < |s.procs|
  {
    var a, b, pc := s.procs[j], t.procs[j], s.procs[p].pc;
    || b == a
    || (a.lock == None && b == a.(lock := Some(p)))
    || (a.lock == Some(p) &&
        (|| b == a.(lock := None)
         || (pc == Kill(j) && b == a.(killed := true, lock := None, state := if a.state.Sleeping? then Runnable else a.state))
         || (WakesWaiter(s, p, j) && a.inWait && a.state.Sleeping? && (b == a.(state := Runnable) || b == a.(state := Runnable, lock := None)))
         || (pc == ForkLocked(j) && b == a.(parent := Some(p)))
         || (pc == ForkParent(j) && b == a.(state := Runnable, lock := None, pc := Off(Fresh)))
         || (pc.ReparentChild? && pc.i == j && b == a.(parent := Some(s.init), lock := None))
         || (pc.WaitChild? && pc.i == j && a.state.Zombie? && b == Proc(Unused, None, false, false, None, NoThread))))
  }

  predicate Handed(before: Option<Pid>, p: Pid, after: Option<Pid>) {
    before == after || (before == None && after == Some(p)) || (before == Some(p) && after == None)
  }

  /** To its own slot: never its parent, and its state only with its own lock. */
  ghost predicate OwnEffect(s: State, p: Pid, t: State)
    requires p < |s.procs| == |t.procs|
  {
    var a, b := s.procs[p], t.procs[p];
    && b.parent == a.parent
    && Handed(a.lock, p, b.lock)
    && ((b.state == a.state && b.inWait == a.inWait && b.killed == a.killed) || a.lock == Some(p) || b.lock == Some(p))
  }

  ghost predicate Framed(s: State, p: Pid, t: State) {
    && p < |s.procs| == |t.procs| && s.init == t.init
    && OwnEffect(s, p, t)
    && forall j :: 0 <= j < |s.procs| && j != p ==> Effect(s, p, t, j)
  }

  /** What the position of a parent p says about its child j. */
  ghost predicate ChildOk(s: State, p: Pid, j: Pid)
    requires p < |s.procs| && j < |s.procs|
  {
    && !GivenAway(s, p, j)
    && (s.procs[j].state.Zombie? && p != s.init ==> !Checked(s, p, j))
    && (s.procs[j].state.Unused? ==> s.procs[p].pc == ForkParent(j))
  }

  lemma SchedFramed(s: State, p: Pid, e: Event, t: State)
    requires Inv(s) && p < |s.procs| && SchedStep(s, p, e, t)
    ensures Framed(s, p, t)
  {
    hide ParentOk, ZombieSeen, OrigOk, WokenOk, StateOk;
    assert SlotOk(s, p);
  }

  lemma SchedLocks(s: State, p: Pid, e: Event, t: State, q: Pid)
    requires p < |s.procs| && s.init < |s.procs| && SchedStep(s, p, e, t)
    requires q < |s.procs| == |t.procs| && SlotOk(s, p) && OwnLockOk(s, p, q)
    ensures OwnLockOk(t, p, q)
  {
  }

  lemma SchedThread(s: State, p: Pid, e: Event, t: State)
    requires Inv(s) && p < |s.procs| && SchedStep(s, p, e, t)
    ensures StateOk(t, p) && RefsOk(t, p) && OrigOk(t, p) && WokenOk(t, p)
  {
    hide LocksOk, ParentOk, ZombieSeen;
    assert SlotOk(s, p);
  }

  lemma SchedAsChild(s: State, p: Pid, e: Event, t: State)
    requires Inv(s) && p < |s.procs| && SchedStep(s, p, e, t)
    ensures ParentOk(t, p) && ZombieSeen(t, p)
  {
    hide OrigOk, WokenOk, LocksOk;
    assert SlotOk(s, p);
  }

  lemma SchedAsParent(s: State, p: Pid, e: Event, t: State, j: Pid)
    requires Inv(s) && p < |s.procs| && SchedStep(s, p, e, t)
    requires j < |t.procs| && j != p && t.procs[j].parent == Some(p)
    ensures ChildOk(t, p, j)
  {
    hide OrigOk, WokenOk, LocksOk;
    assert SlotOk(s, p) && SlotOk(s, j);
  }

  lemma KillFramed(s: State, p: Pid, e: Event, t: State)
    requires Inv(s) && p < |s.procs| && KillStep(s, p, e, t)
    ensures Framed(s, p, t)
  {
    hide ParentOk, ZombieSeen, OrigOk, WokenOk, StateOk;
    assert SlotOk(s, p);
  }

  lemma KillLocks(s: State, p: Pid, e: Event, t: State, q: Pid)
    requires p < |s.procs| && s.init < |s.procs| && KillStep(s, p, e, t)
    requires q < |s.procs| == |t.procs| && SlotOk(s, p) && OwnLockOk(s, p, q)
    ensures OwnLockOk(t, p, q)
  {
  }

  lemma KillThread(s: State, p: Pid, e: Event, t: State)
    requires Inv(s) && p < |s.procs| && KillStep(s, p, e, t)
    ensures StateOk(t, p) && RefsOk(t, p) && OrigOk(t, p) && WokenOk(t, p)
  {
    hide LocksOk;
    assert SlotOk(s, p);
  }

  lemma KillAsChild(s: State, p: Pid, e: Event, t: State)
    requires Inv(s) && p < |s.procs| && KillStep(s, p, e, t)
    ensures ParentOk(t, p) && ZombieSeen(t, p)
  {
    hide OrigOk, WokenOk, LocksOk;
    assert SlotOk(s, p);
  }

  lemma KillAsParent(s: State, p: Pid, e: Event, t: State, j: Pid)
    requires Inv(s) && p < |s.procs| && KillStep(s, p, e, t)
    requires j < |t.procs| && j != p && t.procs[j].parent == Some(p)
    ensures ChildOk(t, p, j)
  {
    hide OrigOk, WokenOk;
    assert SlotOk(s, p) && SlotOk(s, j);
  }

  /** A free slot whose lock nobody holds has no parent. */
  lemma NoParentYet(s: State, np: Pid)
    requires Inv(s) && Free(s, np) && s.procs[np].state.Unused?
    ensures s.procs[np].parent == None
  {
    hide StateOk, OrigOk, WokenOk, ZombieSeen, RefsOk;
    assert SlotOk(s, np);
    assert forall q :: 0 <= q < |s.procs| ==> !Holds(s, q, np);
  }

  lemma ForkRefs(s: State, p: Pid, e: Event, t: State)
    requires Inv(s) && p < |s.procs| && ForkStep(s, p, e, t)
    ensures RefsOk(t, p)
  {
    hide LocksOk, OrigOk, WokenOk, ZombieSeen, ParentOk;
    assert SlotOk(s, p);
    if e.ForkLock? {
      NoParentYet(s, e.np);
    }
  }

  lemma ForkFramed(s: State, p: Pid, e: Event, t: State)
    requires Inv(s) && p < |s.procs| && ForkStep(s, p, e, t)
    ensures Framed(s, p, t)
  {
    hide ParentOk, ZombieSeen, OrigOk, WokenOk, StateOk;
    assert SlotOk(s, p);
  }

  lemma ForkLocks(s: State, p: Pid, e: Event, t: State, q: Pid)
    requires p < |s.procs| && s.init < |s.procs| && ForkStep(s, p, e, t)
    requires q < |s.procs| == |t.procs| && SlotOk(s, p) && OwnLockOk(s, p, q)
    ensures OwnLockOk(t, p, q)
  {
  }

  lemma ForkThread(s: State, p: Pid, e: Event, t: State)
    requires Inv(s) && p < |s.procs| && ForkStep(s, p, e, t)
    ensures StateOk(t, p) && RefsOk(t, p) && OrigOk(t, p) && WokenOk(t, p)
  {
    ForkRefs(s, p, e, t);
    hide RefsOk, LocksOk;
    assert SlotOk(s, p);
  }

  lemma ForkAsChild(s: State, p: Pid, e: Event, t: State)
    requires Inv(s) && p < |s.procs| && ForkStep(s, p, e, t)
    ensures ParentOk(t, p) && ZombieSeen(t, p)
  {
    hide OrigOk, WokenOk, LocksOk;
    assert SlotOk(s, p);
  }

  lemma ForkAsParent(s: State, p: Pid, e: Event, t: State, j: Pid)
    requires Inv(s) && p < |s.procs| && ForkStep(s, p, e, t)
    requires j < |t.procs| && j != p && t.procs[j].parent == Some(p)
    ensures ChildOk(t, p, j)
  {
    hide OrigOk, WokenOk;
    assert SlotOk(s, p) && SlotOk(s, j);
  }

  lemma WaitFramed(s: State, p: Pid, e: Event, t: State)
    requires Inv(s) && p < |s.procs| && WaitStep(s, p, e, t)
    ensures Framed(s, p, t)
  {
    hide ParentOk, ZombieSeen, OrigOk, WokenOk, StateOk;
    assert SlotOk(s, p);
  }

  lemma WaitLocks(s: State, p: Pid, e: Event, t: State, q: Pid)
    requires p < |s.procs| && s.init < |s.procs| && WaitStep(s, p, e, t)
    requires q < |s.procs| == |t.procs| && SlotOk(s, p) && OwnLockOk(s, p, q)
    ensures OwnLockOk(t, p, q)
  {
  }

  lemma WaitThread(s: State, p: Pid, e: Event, t: State)
    requires Inv(s) && p < |s.procs| && WaitStep(s, p, e, t)
    ensures StateOk(t, p) && RefsOk(t, p) && OrigOk(t, p) && WokenOk(t, p)
  {
    hide LocksOk;
    assert SlotOk(s, p);
  }

  lemma WaitAsChild(s: State, p: Pid, e: Event, t: State)
    requires Inv(s) && p < |s.procs| && WaitStep(s, p, e, t)
    ensures ParentOk(t, p) && ZombieSeen(t, p)
  {
    hide OrigOk, WokenOk, LocksOk;
    assert SlotOk(s, p);
  }

  lemma WaitAsParent(s: State, p: Pid, e: Event, t: State, j: Pid)
    requires Inv(s) && p < |s.procs| && WaitStep(s, p, e, t)
    requires j < |t.procs| && j != p && t.procs[j].parent == Some(p)
    ensures ChildOk(t, p, j)
  {
    hide OrigOk, WokenOk;
    assert SlotOk(s, p) && SlotOk(s, j);
  }

  lemma ReturnFramed(s: State, p: Pid, e: Event, t: State)
    requires Inv(s) && p < |s.procs| && ReturnStep(s, p, e, t)
    ensures Framed(s, p, t)
  {
    hide ParentOk, ZombieSeen, OrigOk, WokenOk, StateOk;
    assert SlotOk(s, p);
  }

  lemma ReturnLocks(s: State, p: Pid, e: Event, t: State, q: Pid)
    requires p < |s.procs| && s.init < |s.procs| && ReturnStep(s, p, e, t)
    requires q < |s.procs| == |t.procs| && SlotOk(s, p) && OwnLockOk(s, p, q)
    ensures OwnLockOk(t, p, q)
  {
  }

  lemma ReturnThread(s: State, p: Pid, e: Event, t: State)
    requires Inv(s) && p < |s.procs| && ReturnStep(s, p, e, t)
    ensures StateOk(t, p) && RefsOk(t, p) && OrigOk(t, p) && WokenOk(t, p)
  {
    hide LocksOk;
    assert SlotOk(s, p);
  }

  lemma ReturnAsChild(s: State, p: Pid, e: Event, t: State)
    requires Inv(s) && p < |s.procs| && ReturnStep(s, p, e, t)
    ensures ParentOk(t, p) && ZombieSeen(t, p)
  {
    hide OrigOk, WokenOk, LocksOk;
    assert SlotOk(s, p);
    assert s.procs[p].pc.WaitChild? ==> SlotOk(s, s.procs[p].pc.i);
  }

  lemma ReturnAsParent(s: State, p: Pid, e: Event, t: State, j: Pid)
    requires Inv(s) && p < |s.procs| && ReturnStep(s, p, e, t)
    requires j < |t.procs| && j != p && t.procs[j].parent == Some(p)
    ensures ChildOk(t, p, j)
  {
    hide OrigOk, WokenOk;
    assert SlotOk(s, p) && SlotOk(s, j);
  }

  lemma ExitFramed(s: State, p: Pid, e: Event, t: State)
    requires Inv(s) && p < |s.procs| && ExitStep(s, p, e, t)
    ensures Framed(s, p, t)
  {
    hide ParentOk, ZombieSeen, OrigOk, WokenOk, StateOk;
    assert SlotOk(s, p);
  }

  lemma ExitLocks(s: State, p: Pid, e: Event, t: State, q: Pid)
    requires p < |s.procs| && s.init < |s.procs| && ExitStep(s, p, e, t)
    requires q < |s.procs| == |t.procs| && SlotOk(s, p) && OwnLockOk(s, p, q)
    ensures OwnLockOk(t, p, q)
  {
  }

  lemma ExitThread(s: State, p: Pid, e: Event, t: State)
    requires Inv(s) && p < |s.procs| && ExitStep(s, p, e, t)
    ensures StateOk(t, p) && RefsOk(t, p) && OrigOk(t, p) && WokenOk(t, p)
  {
    hide LocksOk;
    assert SlotOk(s, p);
  }

  lemma ExitAsChild(s: State, p: Pid, e: Event, t: State)
    requires Inv(s) && p < |s.procs| && ExitStep(s, p, e, t)
    ensures ParentOk(t, p) && ZombieSeen(t, p)
  {
    hide OrigOk, WokenOk, LocksOk;
    assert SlotOk(s, p);
  }

  lemma ExitAsParent(s: State, p: Pid, e: Event, t: State, j: Pid)
    requires Inv(s) && p < |s.procs| && ExitStep(s, p, e, t)
    requires j < |t.procs| && j != p && t.procs[j].parent == Some(p)
    ensures ChildOk(t, p, j)
  {
    hide OrigOk, WokenOk;
    assert SlotOk(s, p) && SlotOk(s, j);
  }

  lemma OrigFramed(s: State, p: Pid, e: Event, t: State)
    requires Inv(s) && p < |s.procs| && OrigStep(s, p, e, t)
    ensures Framed(s, p, t)
  {
    hide ParentOk, ZombieSeen, OrigOk, WokenOk, StateOk;
    assert SlotOk(s, p);
  }

  lemma OrigLocks(s: State, p: Pid, e: Event, t: State, q: Pid)
    requires p < |s.procs| && s.init < |s.procs| && OrigStep(s, p, e, t)
    requires q < |s.procs| == |t.procs| && SlotOk(s, p) && OwnLockOk(s, p, q)
    ensures OwnLockOk(t, p, q)
  {
  }

  lemma OrigThread(s: State, p: Pid, e: Event, t: State)
    requires Inv(s) && p < |s.procs| && OrigStep(s, p, e, t)
    ensures StateOk(t, p) && RefsOk(t, p) && OrigOk(t, p) && WokenOk(t, p)
  {
    hide LocksOk;
    assert SlotOk(s, p);
  }

  lemma OrigAsChild(s: State, p: Pid, e: Event, t: State)
    requires Inv(s) && p < |s.procs| && OrigStep(s, p, e, t)
    ensures ParentOk(t, p) && ZombieSeen(t, p)
  {
    hide OrigOk, WokenOk, LocksOk;
    assert SlotOk(s, p);
  }

  lemma OrigAsParent(s: State, p: Pid, e: Event, t: State, j: Pid)
    requires Inv(s) && p < |s.procs| && OrigStep(s, p, e, t)
    requires j < |t.procs| && j != p && t.procs[j].parent == Some(p)
    ensures ChildOk(t, p, j)
  {
    hide OrigOk, WokenOk;
    assert SlotOk(s, p) && SlotOk(s, j);
  }

  lemma ReparentFramed(s: State, p: Pid, e: Event, t: State)
    requires Inv(s) && p < |s.procs| && ReparentStep(s, p, e, t)
    ensures Framed(s, p, t)
  {
    hide ParentOk, ZombieSeen, OrigOk, WokenOk, StateOk;
    assert SlotOk(s, p);
  }

  lemma ReparentLocks(s: State, p: Pid, e: Event, t: State, q: Pid)
    requires p < |s.procs| && s.init < |s.procs| && ReparentStep(s, p, e, t)
    requires q < |s.procs| == |t.procs| && SlotOk(s, p) && OwnLockOk(s, p, q)
    ensures OwnLockOk(t, p, q)
  {
  }

  lemma ReparentThread(s: State, p: Pid, e: Event, t: State)
    requires Inv(s) && p < |s.procs| && ReparentStep(s, p, e, t)
    ensures StateOk(t, p) && RefsOk(t, p) && OrigOk(t, p) && WokenOk(t, p)
  {
    assert SlotOk(s, p);
  }

  lemma ReparentAsChild(s: State, p: Pid, e: Event, t: State)
    requires Inv(s) && p < |s.procs| && ReparentStep(s, p, e, t)
    ensures ParentOk(t, p) && ZombieSeen(t, p)
  {
    hide OrigOk, WokenOk, LocksOk;
    assert SlotOk(s, p);
  }

  lemma ReparentAsParent(s: State, p: Pid, e: Event, t: State, j: Pid)
    requires Inv(s) && p < |s.procs| && ReparentStep(s, p, e, t)
    requires j < |t.procs| && j != p && t.procs[j].parent == Some(p)
    ensures ChildOk(t, p, j)
  {
    hide OrigOk, WokenOk;
    assert SlotOk(s, p) && SlotOk(s, j);
  }

  /** After wakeup1 the original parent is not in the scan of wait: its lock is held here. */
  lemma OrigUnchecked(s: State, p: Pid)
    requires Inv(s) && p < |s.procs| && s.procs[p].pc.ExitWoken?
    ensures s.procs[p].pc.orig < |s.procs| && !Checked(s, s.procs[p].pc.orig, p)
  {
    hide StateOk, OrigOk, ParentOk, ZombieSeen;
    assert SlotOk(s, p);
    var orig := s.procs[p].pc.orig;
    assert Holds(s, p, orig);
    assert s.procs[orig].lock == Some(p) && orig != p;
    assert !Holds(s, orig, orig);
  }

  lemma LastFramed(s: State, p: Pid, e: Event, t: State)
    requires Inv(s) && p < |s.procs| && LastStep(s, p, e, t)
    ensures Framed(s, p, t)
  {
    hide ParentOk, ZombieSeen, OrigOk, WokenOk, StateOk;
    assert SlotOk(s, p);
  }

  lemma LastLocks(s: State, p: Pid, e: Event, t: State, q: Pid)
    requires p < |s.procs| && s.init < |s.procs| && LastStep(s, p, e, t)
    requires q < |s.procs| == |t.procs| && SlotOk(s, p) && OwnLockOk(s, p, q)
    ensures OwnLockOk(t, p, q)
  {
  }

  lemma LastThread(s: State, p: Pid, e: Event, t: State)
    requires Inv(s) && p < |s.procs| && LastStep(s, p, e, t)
    ensures StateOk(t, p) && RefsOk(t, p) && OrigOk(t, p) && WokenOk(t, p)
  {
    assert SlotOk(s, p);
  }

  lemma LastAsChild(s: State, p: Pid, e: Event, t: State)
    requires Inv(s) && p < |s.procs| && LastStep(s, p, e, t)
    ensures ParentOk(t, p) && ZombieSeen(t, p)
  {
    hide LocksOk, ChildOk;
    assert SlotOk(s, p);
    if e.ExitSetZombie? {
      OrigUnchecked(s, p);
    }
  }

  /** By then p has no children left. */
  lemma LastNoChild(s: State, p: Pid, e: Event, t: State, j: Pid)
    requires Inv(s) && p < |s.procs| && LastStep(s, p, e, t) && j < |t.procs| && j != p
    ensures t.procs[j].parent != Some(p)
  {
    hide OrigOk, WokenOk, LocksOk, ZombieSeen;
    assert SlotOk(s, p) && SlotOk(s, j);
  }

  // ---------------------------------------------------------------------
  // Another thread's slot

  /** A slot whose lock another thread holds is left as it is, except that its own
      thread may move. */
  lemma LockedKept(s: State, p: Pid, t: State, j: Pid, q: Pid)
    requires Framed(s, p, t) && j != p && q < |s.procs| && s.procs[q].lock == Some(j)
    ensures t.procs[q] == s.procs[q].(pc := t.procs[q].pc)
    ensures q != p ==> t.procs[q] == s.procs[q]
  {
    hide WakesWaiter;
    assert q != p ==> Effect(s, p, t, q);
  }

  lemma OtherState(s: State, p: Pid, t: State, j: Pid)
    requires Inv(s) && Framed(s, p, t) && j < |s.procs| && j != p
    ensures StateOk(t, j)
  {
    hide LocksOk, OrigOk, ZombieSeen, WokenOk, WakesWaiter;
    assert SlotOk(s, j) && Effect(s, p, t, j);
    assert SlotOk(s, p);
  }

  /** A step moves the thread of another slot only by making or freeing its process. */
  lemma OtherPc(s: State, p: Pid, t: State, j: Pid)
    requires Framed(s, p, t) && j < |s.procs| && j != p
    ensures |t.procs| == |s.procs| && t.init == s.init
    ensures t.procs[j].pc == s.procs[j].pc || t.procs[j].pc == Off(Fresh) || t.procs[j].pc == NoThread
  {
    hide OwnEffect, WakesWaiter;
    assert Effect(s, p, t, j);
  }

  lemma OtherRefs(s: State, p: Pid, t: State, j: Pid)
    requires Framed(s, p, t) && j < |s.procs| && j != p
    requires StateOk(s, j) && RefsOk(s, j) && RefsOk(s, p)
    requires forall q :: 0 <= q < |s.procs| && Holds(s, j, q) ==> s.procs[q].lock == Some(j)
    ensures RefsOk(t, j)
  {
    hide Framed, StateOk, WakesWaiter;
    OtherPc(s, p, t, j);
    var pc := s.procs[j].pc;
    if pc.ForkLocked? || pc.ForkParent? {
      assert Holds(s, j, pc.np);
      LockedKept(s, p, t, j, pc.np);
    } else if pc.WaitChild? || pc.ReparentChild? {
      assert Holds(s, j, pc.i);
      LockedKept(s, p, t, j, pc.i);
    }
  }

  lemma OtherOrig(s: State, p: Pid, t: State, j: Pid)
    requires Inv(s) && Framed(s, p, t) && j < |s.procs| && j != p
    ensures OrigOk(t, j)
  {
    hide LocksOk, ZombieSeen, WokenOk, StateOk, WakesWaiter;
    assert SlotOk(s, j) && Effect(s, p, t, j);
    assert SlotOk(s, p);
  }

  lemma OtherWoken(s: State, p: Pid, t: State, j: Pid)
    requires Inv(s) && Framed(s, p, t) && j < |s.procs| && j != p
    ensures WokenOk(t, j)
  {
    hide ParentOk, ZombieSeen, OrigOk, WakesWaiter;
    assert SlotOk(s, j) && Effect(s, p, t, j);
    var pc := s.procs[j].pc;
    if pc.ExitWoken? {
      assert OwnLockOk(s, j, pc.orig);
      LockedKept(s, p, t, j, pc.orig);
    }
  }

  /** The thread of a third slot r keeps its position, unless r has no children. */
  lemma ParentKept(s: State, p: Pid, t: State, j: Pid, r: Pid)
    requires p < |s.procs| == |t.procs| && r < |s.procs| && Effect(s, p, t, r)
    requires RefsOk(s, p) && StateOk(s, r) && !GivenAway(s, r, j)
    ensures !GivenAway(t, r, j) && t.procs[r].pc == s.procs[r].pc
  {
  }

  lemma OtherParent(s: State, p: Pid, t: State, j: Pid)
    requires Inv(s) && Framed(s, p, t) && j < |s.procs| && j != p
    requires t.procs[j].parent == Some(p) ==> ChildOk(t, p, j)
    ensures ParentOk(t, j)
  {
    hide LocksOk, ZombieSeen, WokenOk, OrigOk, WakesWaiter;
    assert SlotOk(s, j) && SlotOk(s, p);
    if t.procs[j].parent.Some? && t.procs[j].parent.value != p {
      var r := t.procs[j].parent.value;
      assert Effect(s, p, t, j);
      assert SlotOk(s, if s.procs[j].parent == Some(r) then r else s.init);
      assert Effect(s, p, t, r);
      ParentKept(s, p, t, j, r);
    }
    LinkKept(s, p, t, j);
  }

  lemma LinkKept(s: State, p: Pid, t: State, j: Pid)
    requires Framed(s, p, t) && j < |s.procs| && j != p && ParentOk(s, j) && RefsOk(s, p)
    requires t.procs[j].parent.Some? ==>
               if t.procs[j].parent.value == p then ChildOk(t, p, j)
               else && t.procs[j].parent.value < |s.procs| && t.procs[j].parent.value != j
                    && !GivenAway(t, t.procs[j].parent.value, j)
                    && t.procs[t.procs[j].parent.value].pc == s.procs[t.procs[j].parent.value].pc
    ensures ParentOk(t, j)
  {
    hide WakesWaiter;
    assert Effect(s, p, t, j);
  }

  /** Another thread q has not looked at more of the table, nor gone to sleep. */
  lemma StillUnchecked(s: State, p: Pid, t: State, q: Pid, j: Pid)
    requires Framed(s, p, t) && q < |s.procs| && q != p && !Checked(s, q, j)
    ensures !Checked(t, q, j)
  {
    hide OwnEffect, WakesWaiter;
    assert Effect(s, p, t, q);
  }

  lemma OtherZombie(s: State, p: Pid, t: State, j: Pid)
    requires Framed(s, p, t) && j < |s.procs| && j != p
    requires ZombieSeen(s, j) && ParentOk(s, j) && RefsOk(s, p)
    requires t.procs[j].parent == Some(p) ==> ChildOk(t, p, j)
    ensures ZombieSeen(t, j)
  {
    hide Checked, GivenAway, RefsOk, OwnEffect, WakesWaiter;
    assert Effect(s, p, t, j);
    var parent := t.procs[j].parent;
    if t.procs[j].state.Zombie? && parent.Some? && parent.value != s.init && parent.value != p && parent.value < |s.procs| {
      StillUnchecked(s, p, t, parent.value, j);
    }
  }

  lemma OtherLocks(s: State, p: Pid, t: State, d: Pid, q: Pid)
    requires Framed(s, p, t) && d < |s.procs| && q < |s.procs| && d != p
    requires StateOk(s, d) && RefsOk(s, p) && OwnLockOk(s, d, q) && OwnLockOk(s, d, d)
    ensures OwnLockOk(t, d, q)
  {
    hide WakesWaiter;
    assert Effect(s, p, t, d);
    assert q != p ==> Effect(s, p, t, q);
  }

  // ---------------------------------------------------------------------
  // Putting the steps together

  lemma StepFramed(s: State, p: Pid, e: Event, t: State)
    requires Inv(s) && Step(s, p, e, t)
    ensures Framed(s, p, t)
  {
    hide Inv, Framed, SchedStep, KillStep, ForkStep, WaitStep, ReturnStep, ExitStep, OrigStep, ReparentStep, LastStep;
    if SchedStep(s, p, e, t) { SchedFramed(s, p, e, t); }
    else if KillStep(s, p, e, t) { KillFramed(s, p, e, t); }
    else if ForkStep(s, p, e, t) { ForkFramed(s, p, e, t); }
    else if WaitStep(s, p, e, t) { WaitFramed(s, p, e, t); }
    else if ReturnStep(s, p, e, t) { ReturnFramed(s, p, e, t); }
    else if ExitStep(s, p, e, t) { ExitFramed(s, p, e, t); }
    else if OrigStep(s, p, e, t) { OrigFramed(s, p, e, t); }
    else if ReparentStep(s, p, e, t) { ReparentFramed(s, p, e, t); }
    else { LastFramed(s, p, e, t); }
  }

  lemma StepOwn(s: State, p: Pid, e: Event, t: State)
    requires Inv(s) && Step(s, p, e, t) && p < |t.procs|
    ensures SlotOk(t, p)
  {
    hide Inv, SchedStep, KillStep, ForkStep, WaitStep, ReturnStep, ExitStep, OrigStep, ReparentStep, LastStep, StateOk, RefsOk, OrigOk, ParentOk, ZombieSeen, WokenOk;
    if SchedStep(s, p, e, t) { SchedThread(s, p, e, t); SchedAsChild(s, p, e, t); }
    else if KillStep(s, p, e, t) { KillThread(s, p, e, t); KillAsChild(s, p, e, t); }
    else if ForkStep(s, p, e, t) { ForkThread(s, p, e, t); ForkAsChild(s, p, e, t); }
    else if WaitStep(s, p, e, t) { WaitThread(s, p, e, t); WaitAsChild(s, p, e, t); }
    else if ReturnStep(s, p, e, t) { ReturnThread(s, p, e, t); ReturnAsChild(s, p, e, t); }
    else if ExitStep(s, p, e, t) { ExitThread(s, p, e, t); ExitAsChild(s, p, e, t); }
    else if OrigStep(s, p, e, t) { OrigThread(s, p, e, t); OrigAsChild(s, p, e, t); }
    else if ReparentStep(s, p, e, t) { ReparentThread(s, p, e, t); ReparentAsChild(s, p, e, t); }
    else { LastThread(s, p, e, t); LastAsChild(s, p, e, t); }
  }

  lemma StepAsParent(s: State, p: Pid, e: Event, t: State, j: Pid)
    requires Inv(s) && Step(s, p, e, t) && p < |t.procs|
    requires j < |t.procs| && j != p && t.procs[j].parent == Some(p)
    ensures ChildOk(t, p, j)
  {
    hide Inv, SchedStep, KillStep, ForkStep, WaitStep, ReturnStep, ExitStep, OrigStep, ReparentStep, LastStep, ChildOk;
    if SchedStep(s, p, e, t) { SchedAsParent(s, p, e, t, j); }
    else if KillStep(s, p, e, t) { KillAsParent(s, p, e, t, j); }
    else if ForkStep(s, p, e, t) { ForkAsParent(s, p, e, t, j); }
    else if WaitStep(s, p, e, t) { WaitAsParent(s, p, e, t, j); }
    else if ReturnStep(s, p, e, t) { ReturnAsParent(s, p, e, t, j); }
    else if ExitStep(s, p, e, t) { ExitAsParent(s, p, e, t, j); }
    else if OrigStep(s, p, e, t) { OrigAsParent(s, p, e, t, j); }
    else if ReparentStep(s, p, e, t) { ReparentAsParent(s, p, e, t, j); }
    else { LastNoChild(s, p, e, t, j); }
  }

  lemma StepOwnLocks(s: State, p: Pid, e: Event, t: State, q: Pid)
    requires Inv(s) && Step(s, p, e, t) && q < |s.procs| == |t.procs|
    ensures OwnLockOk(t, p, q)
  {
    hide SchedStep, KillStep, ForkStep, WaitStep, ReturnStep, ExitStep, OrigStep, ReparentStep, LastStep, StateOk, RefsOk, OrigOk, ParentOk, ZombieSeen, WokenOk;
    assert SlotOk(s, p) && OwnLockOk(s, p, q);
    hide Inv, OwnLockOk;
    if SchedStep(s, p, e, t) { SchedLocks(s, p, e, t, q); }
    else if KillStep(s, p, e, t) { KillLocks(s, p, e, t, q); }
    else if ForkStep(s, p, e, t) { ForkLocks(s, p, e, t, q); }
    else if WaitStep(s, p, e, t) { WaitLocks(s, p, e, t, q); }
    else if ReturnStep(s, p, e, t) { ReturnLocks(s, p, e, t, q); }
    else if ExitStep(s, p, e, t) { ExitLocks(s, p, e, t, q); }
    else if OrigStep(s, p, e, t) { OrigLocks(s, p, e, t, q); }
    else if ReparentStep(s, p, e, t) { ReparentLocks(s, p, e, t, q); }
    else { LastLocks(s, p, e, t, q); }
  }

  lemma StepSlot(s: State, p: Pid, e: Event, t: State, j: Pid)
    requires Inv(s) && Step(s, p, e, t) && Framed(s, p, t) && j < |t.procs|
    ensures SlotOk(t, j)
  {
    if j == p {
      StepOwn(s, p, e, t);
    } else {
      if t.procs[j].parent == Some(p) {
        StepAsParent(s, p, e, t, j);
      }
      assert SlotOk(s, j) && SlotOk(s, p);
      OtherState(s, p, t, j);
      OtherRefs(s, p, t, j);
      OtherOrig(s, p, t, j);
      OtherParent(s, p, t, j);
      OtherZombie(s, p, t, j);
      OtherWoken(s, p, t, j);
    }
  }

  lemma LocksFromPoints(s: State)
    requires forall q :: 0 <= q < |s.procs| && s.procs[q].lock.Some? ==> s.procs[q].lock.value < |s.procs|
    requires forall p, q :: 0 <= p < |s.procs| && 0 <= q < |s.procs| ==> OwnLockOk(s, p, q)
    ensures LocksOk(s)
  {
    forall p, q | 0 <= p < |s.procs| && 0 <= q < |s.procs| && Holds(s, p, q) ensures s.procs[q].lock == Some(p) {
      assert OwnLockOk(s, p, q);
    }
    forall q | 0 <= q < |s.procs| && s.procs[q].lock.Some? ensures HolderOk(s, s.procs[q].lock.value, q) {
      assert OwnLockOk(s, s.procs[q].lock.value, q);
    }
  }

  lemma StepLock(s: State, p: Pid, e: Event, t: State, d: Pid, q: Pid)
    requires Inv(s) && Step(s, p, e, t) && Framed(s, p, t) && d < |t.procs| && q < |t.procs|
    ensures OwnLockOk(t, d, q)
  {
    if d == p {
      StepOwnLocks(s, p, e, t, q);
    } else {
      assert SlotOk(s, d) && SlotOk(s, p);
      OtherLocks(s, p, t, d, q);
    }
  }

  lemma StepLocks(s: State, p: Pid, e: Event, t: State)
    requires Inv(s) && Step(s, p, e, t) && Framed(s, p, t)
    ensures LocksOk(t)
  {
    hide Step;
    forall d, q | 0 <= d < |t.procs| && 0 <= q < |t.procs| ensures OwnLockOk(t, d, q) {
      StepLock(s, p, e, t, d, q);
    }
    forall q | 0 <= q < |t.procs| && t.procs[q].lock.Some? ensures t.procs[q].lock.value < |t.procs| {
      assert q != p ==> Effect(s, p, t, q);
    }
    LocksFromPoints(t);
  }

  lemma StepInv(s: State, p: Pid, e: Event, t: State)
    requires Inv(s) && Step(s, p, e, t)
    ensures Inv(t)
  {
    StepFramed(s, p, e, t);
    StepLocks(s, p, e, t);
    forall j | 0 <= j < |t.procs| ensures SlotOk(t, j) {
      StepSlot(s, p, e, t, j);
    }
  }

  // ---------------------------------------------------------------------
  // Whole runs

  /** events[i] is performed by thread who[i], or by the scheduler on its behalf. */
  ghost predicate IsRun(run: seq<State>, who: seq<Pid>, events: seq<Event>) {
    && |run| == |events| + 1 == |who| + 1
    && Init(run[0])
    && forall i :: 0 <= i < |events| ==> Step(run[i], who[i], events[i], run[i + 1])
  }

  lemma {:induction false} RunInv(run: seq<State>, who: seq<Pid>, events: seq<Event>, n: nat)
    requires IsRun(run, who, events) && n < |run|
    ensures Inv(run[n])
  {
    if n == 0 {
      InitInv(run[0]);
    } else {
      var k := n - 1;
      RunInv(run, who, events, k);
      StepInv(run[k], who[k], events[k], run[k + 1]);
    }
  }

  /** In every reachable state each process other than init, live or zombie, has a
      parent that is neither UNUSED nor ZOMBIE, and a parent other than init is not
      asleep in wait while a child of its is a zombie. */
  lemma FamilySafe(run: seq<State>, who: seq<Pid>, events: seq<Event>, n: nat, j: Pid)
    requires IsRun(run, who, events) && n < |run|
    requires j < |run[n].procs| && j != run[n].init && !run[n].procs[j].state.Unused?
    ensures var s := run[n];
            && s.procs[j].parent.Some? && s.procs[j].parent.value < |s.procs|
            && var q := s.procs[s.procs[j].parent.value];
               && !q.state.Unused? && !q.state.Zombie?
               && (s.procs[j].state.Zombie? && s.procs[j].parent.value != s.init ==> !(q.state.Sleeping? && q.inWait))
  {
    RunInv(run, who, events, n);
    var s := run[n];
    assert SlotOk(s, j);
    assert SlotOk(s, s.procs[j].parent.value);
  }

  /** Only the thread that frees the slot can change it. */
  lemma ZombieEffect(s: State, p: Pid, t: State, j: Pid)
    requires Inv(s) && Framed(s, p, t) && j < |s.procs| && j != p
    requires s.procs[j].state.Zombie? && !t.procs[j].state.Zombie?
    ensures s.procs[p].pc.WaitChild? && s.procs[p].pc.i == j && s.procs[j].parent == Some(p) && t.procs[j].state.Unused?
  {
    hide LocksOk, OrigOk, WokenOk, ZombieSeen, ParentOk, WakesWaiter;
    assert SlotOk(s, p) && SlotOk(s, j);
    assert Effect(s, p, t, j);
  }

  lemma AtChild(s: State, p: Pid, e: Event, t: State)
    requires Step(s, p, e, t) && s.procs[p].pc.WaitChild?
    ensures p < |s.procs| && ((e.WaitAlive? && WaitStep(s, p, e, t)) || ReturnStep(s, p, e, t))
  {
  }

  lemma AtEnd(s: State, p: Pid, e: Event, t: State)
    requires Step(s, p, e, t) && (s.procs[p].pc.Off? || s.procs[p].pc.ExitZombie?)
    ensures p < |s.procs| && (SchedStep(s, p, e, t) || LastStep(s, p, e, t))
  {
  }

  /** A thread at a zombie child can free it, or leave it. */
  lemma FreeEvent(s: State, p: Pid, e: Event, t: State, j: Pid)
    requires Step(s, p, e, t) && s.procs[p].pc.WaitChild? && s.procs[p].pc.i == j && j != p && j < |s.procs| == |t.procs|
    requires s.procs[j].state.Zombie? && !t.procs[j].state.Zombie?
    ensures e.WaitFree?
  {
    hide Step;
    AtChild(s, p, e, t);
  }

  /** A zombie does not leave that state by itself. */
  lemma ZombieStays(s: State, p: Pid, e: Event, t: State)
    requires Inv(s) && Step(s, p, e, t) && p < |t.procs| && s.procs[p].state.Zombie?
    ensures t.procs[p].state.Zombie?
  {
    hide Step, LocksOk, RefsOk, OrigOk, WokenOk, ZombieSeen, ParentOk;
    StepInTable(s, p, e, t);
    assert SlotOk(s, p);
    AtEnd(s, p, e, t);
  }

  lemma LeavesZombie(s: State, p: Pid, e: Event, t: State, j: Pid)
    requires Inv(s) && Step(s, p, e, t) && j < |s.procs| == |t.procs|
    requires s.procs[j].state.Zombie? && !t.procs[j].state.Zombie?
    ensures e.WaitFree? && s.procs[j].parent == Some(p) && t.procs[j].state.Unused?
  {
    hide Inv, Step, Framed;
    StepFramed(s, p, e, t);
    StepInTable(s, p, e, t);
    if j == p {
      ZombieStays(s, p, e, t);
    } else {
      ZombieEffect(s, p, t, j);
      FreeEvent(s, p, e, t, j);
    }
  }

  lemma StepInTable(s: State, p: Pid, e: Event, t: State)
    requires Step(s, p, e, t)
    ensures p < |s.procs|
  {
  }

  /** A slot goes from ZOMBIE to UNUSED only in the wait of the process that is its
      parent at that moment; and it leaves ZOMBIE in no other way. */
  lemma FreedByParent(run: seq<State>, who: seq<Pid>, events: seq<Event>, n: nat, j: Pid)
    requires IsRun(run, who, events) && n < |events| && j < |run[n].procs| == |run[n + 1].procs|
    requires run[n].procs[j].state.Zombie? && !run[n + 1].procs[j].state.Zombie?
    ensures events[n].WaitFree? && run[n].procs[j].parent == Some(who[n]) && run[n + 1].procs[j].state.Unused?
  {
    RunInv(run, who, events, n);
    assert Step(run[n], who[n], events[n], run[n + 1]);
    LeavesZombie(run[n], who[n], events[n], run[n + 1], j);
  }
}
