/** sleep, wakeup, yield and the scheduler (kernel/proc.c) as interleaved steps of
    the CPUs at lock granularity. The scheduler and a process hand p->lock to each
    other across swtch; since a spinlock belongs to a CPU, the owner of a lock in this
    model is a CPU. Channel k has a condition, guarded by the lock lks[guard[k]]; a lock may
    guard any number of channels, as pi->lock does. Who makes a condition true calls wakeup
    at any later time before it gives up the lock. */
module SleepWakeup {
  import opened ProcTable

  type Cpu = nat
  type Chan = nat
  type Lk = nat

  /** Where a process goes on after the scheduler switches to it. */
  datatype Context = Fresh | AfterYield | AfterSleep(k: Chan)

  datatype Proc = Proc(state: PState, chan: Option<Chan>, lock: Option<Cpu>, context: Context)

  /** What a CPU is executing. `intr` marks an interrupt handler, which may wake but
      never sleeps. Locks held in each case are given by HoldsProc and HoldsLk. */
  datatype Act =
    | Idle                                    // scheduler loop, between processes
    | Picked(p: Pid)                          // scheduler, has acquired p->lock
    | Dropping(p: Pid)                        // scheduler, back from p, c->proc = 0 done
    | User                                    // running the process, no lock held
    | Resumed                                 // just returned from swtch, p->lock held
    | Reacquire(k: Chan)                      // end of sleep: about to acquire lk
    | Critical(l: Lk, owed: set<Chan>, intr: bool)  // holds lk; has to call wakeup on `owed`
    | Scan(l: Lk, k: Chan, i: nat, owed: set<Chan>, intr: bool)   // in wakeup, about to lock proc[i]
    | Visit(l: Lk, k: Chan, i: nat, owed: set<Chan>, intr: bool)  // in wakeup, holds proc[i].lock
    | SleepWant(l: Lk, k: Chan)               // sleep: about to acquire p->lock
    | SleepBoth(l: Lk, k: Chan)               // sleep: holds lk and p->lock
    | SleepLocked(k: Chan)                    // sleep: has released lk
    | YieldLocked                             // yield or exit: holds p->lock
    | Leaving                                 // state changed, p->lock held, in sched
    | Table(p: Pid)                           // kill, fork or wait: holds p->lock

  datatype Core = Core(proc: Option<Pid>, act: Act)

  datatype State = State(procs: seq<Proc>, cores: seq<Core>, lks: seq<Option<Cpu>>, guard: seq<Lk>, conds: seq<bool>)

  predicate HoldsProc(core: Core, p: Pid) {
    match core.act
    case Picked(q) => p == q
    case Dropping(q) => p == q
    case Visit(_, _, i, _, _) => p == i
    case Table(q) => p == q
    case Resumed => core.proc == Some(p)
    case SleepBoth(_, _) => core.proc == Some(p)
    case SleepLocked(_) => core.proc == Some(p)
    case YieldLocked => core.proc == Some(p)
    case Leaving => core.proc == Some(p)
    case _ => false
  }

  predicate HoldsLk(core: Core, l: Lk) {
    match core.act
    case Critical(j, _, _) => j == l
    case Scan(j, _, _, _, _) => j == l
    case Visit(j, _, _, _, _) => j == l
    case SleepWant(j, _) => j == l
    case SleepBoth(j, _) => j == l
    case _ => false
  }

  // ---------------------------------------------------------------------
  // Steps. Each is one lock operation or one change made under a lock.

  datatype Event =
    | Pick(p: Pid)          // scheduler: acquire(&p->lock)
    | Dispatch              // scheduler: RUNNABLE, so RUNNING, c->proc = p, swtch
    | Skip                  // scheduler: not RUNNABLE, release(&p->lock)
    | Switch                // sched: swtch back; scheduler: c->proc = 0
    | Drop                  // scheduler: release(&p->lock)
    | Resume                // the process after swtch: (p->chan = 0,) release(&p->lock)
    | Enter(l: Lk, intr: bool)    // acquire(lk), by the process or by a handler
    | Exit                  // release(lk)
    | MakeTrue(k: Chan)     // make the condition of k true; wakeup is owed
    | MakeFalse(k: Chan)    // make the condition of k false
    | Wakeup(k: Chan)       // call wakeup(k)
    | ScanLock              // wakeup: acquire(&proc[i].lock)
    | ScanVisit             // wakeup: wake proc[i] if it sleeps on k; release
    | ScanDone              // wakeup returns
    | WantSleep(k: Chan)    // the condition of k is false: call sleep
    | SleepLock             // sleep: acquire(&p->lock)
    | SleepRelease          // sleep: release(lk)
    | FallAsleep            // sleep: p->chan = chan; p->state = SLEEPING
    | YieldLock             // yield or exit: acquire(&p->lock)
    | GiveUp(s: PState)     // yield: RUNNABLE; exit: ZOMBIE
    | TableLock(p: Pid)     // kill, fork, wait: acquire(&p->lock)
    | TableSet(s: PState)   // kill: SLEEPING to RUNNABLE; fork: UNUSED to RUNNABLE; wait: ZOMBIE to UNUSED
    | TableUnlock           // release(&p->lock)

  function SetAct(s: State, c: Cpu, a: Act): State
    requires c < |s.cores|
  {
    s.(cores := s.cores[c := s.cores[c].(act := a)])
  }

  function SetProc(s: State, p: Pid, q: Proc): State
    requires p < |s.procs|
  {
    s.(procs := s.procs[p := q])
  }

  function SetLk(s: State, l: Lk, o: Option<Cpu>): State
    requires l < |s.lks|
  {
    s.(lks := s.lks[l := o])
  }

  function SetCond(s: State, k: Chan, b: bool): State
    requires k < |s.conds|
  {
    s.(conds := s.conds[k := b])
  }

  /** Acquire or release proc[p].lock while the CPU moves on to a. */
  function ProcLock(s: State, c: Cpu, p: Pid, o: Option<Cpu>, a: Act): State
    requires c < |s.cores| && p < |s.procs|
  {
    SetAct(SetProc(s, p, s.procs[p].(lock := o)), c, a)
  }

  predicate CanLock(s: State, p: Pid) {
    p < |s.procs| && s.procs[p].lock == None
  }

  predicate HasProc(s: State, c: Cpu) {
    c < |s.cores| && s.cores[c].proc.Some? && s.cores[c].proc.value < |s.procs|
  }

  predicate PickStep(s: State, c: Cpu, p: Pid, t: State) {
    && c < |s.cores| && s.cores[c].act.Idle? && CanLock(s, p)
    && t == ProcLock(s, c, p, Some(c), Picked(p))
  }

  predicate DispatchStep(s: State, c: Cpu, t: State) {
    && c < |s.cores| && s.cores[c].act.Picked?
    && var p := s.cores[c].act.p;
       && p < |s.procs| && s.procs[p].state.Runnable?
       && t == SetProc(s, p, s.procs[p].(state := Running)).(cores := s.cores[c := Core(Some(p), Resumed)])
  }

  predicate SkipStep(s: State, c: Cpu, t: State) {
    && c < |s.cores| && s.cores[c].act.Picked?
    && var p := s.cores[c].act.p;
       && p < |s.procs| && !s.procs[p].state.Runnable?
       && t == ProcLock(s, c, p, None, Idle)
  }

  predicate SwitchStep(s: State, c: Cpu, t: State) {
    && HasProc(s, c) && s.cores[c].act.Leaving?
    && t == s.(cores := s.cores[c := Core(None, Dropping(s.cores[c].proc.value))])
  }

  predicate DropStep(s: State, c: Cpu, t: State) {
    && c < |s.cores| && s.cores[c].act.Dropping? && s.cores[c].act.p < |s.procs|
    && t == ProcLock(s, c, s.cores[c].act.p, None, Idle)
  }

  predicate ResumeStep(s: State, c: Cpu, t: State) {
    && HasProc(s, c) && s.cores[c].act.Resumed?
    && var p := s.cores[c].proc.value;
       match s.procs[p].context
       case AfterSleep(k) =>
         t == SetAct(SetProc(s, p, s.procs[p].(chan := None, lock := None)), c, Reacquire(k))
       case _ => t == ProcLock(s, c, p, None, User)
  }

  /** A process takes lk from its own code or at the end of sleep; an interrupt
      handler runs when no spinlock is held, in a process or in the scheduler loop. */
  predicate EnterStep(s: State, c: Cpu, l: Lk, intr: bool, t: State) {
    && c < |s.cores| && l < |s.lks| && s.lks[l] == None
    && (if intr then s.cores[c].act.Idle? || s.cores[c].act.User?
        else s.cores[c].act.User?
             || (s.cores[c].act.Reacquire? && s.cores[c].act.k < |s.guard| && s.guard[s.cores[c].act.k] == l))
    && t == SetAct(SetLk(s, l, Some(c)), c, Critical(l, {}, intr))
  }

  /** The lock is not given up while a wakeup is owed. */
  predicate ExitStep(s: State, c: Cpu, t: State) {
    && c < |s.cores| && s.cores[c].act.Critical? && s.cores[c].act.l < |s.lks| && s.cores[c].act.owed == {}
    && t == SetAct(SetLk(s, s.cores[c].act.l, None), c, if s.cores[c].proc.Some? then User else Idle)
  }

  /** Channel k belongs to the lock that c holds. */
  predicate InCritical(s: State, c: Cpu, k: Chan) {
    && c < |s.cores| && s.cores[c].act.Critical?
    && k < |s.guard| == |s.conds| && s.guard[k] == s.cores[c].act.l
  }

  predicate MakeTrueStep(s: State, c: Cpu, k: Chan, t: State) {
    && InCritical(s, c, k)
    && var a := s.cores[c].act;
       t == SetAct(SetCond(s, k, true), c, Critical(a.l, a.owed + {k}, a.intr))
  }

  predicate MakeFalseStep(s: State, c: Cpu, k: Chan, t: State) {
    InCritical(s, c, k) && t == SetCond(s, k, false)
  }

  predicate WakeupStep(s: State, c: Cpu, k: Chan, t: State) {
    && InCritical(s, c, k)
    && var a := s.cores[c].act;
       t == SetAct(s, c, Scan(a.l, k, 0, a.owed - {k}, a.intr))
  }

  predicate ScanLockStep(s: State, c: Cpu, t: State) {
    && c < |s.cores| && s.cores[c].act.Scan?
    && var a := s.cores[c].act;
       && CanLock(s, a.i)
       && t == ProcLock(s, c, a.i, Some(c), Visit(a.l, a.k, a.i, a.owed, a.intr))
  }

  function Woken(p: Proc, k: Chan): Proc {
    if p.state.Sleeping? && p.chan == Some(k) then p.(state := Runnable) else p
  }

  predicate ScanVisitStep(s: State, c: Cpu, t: State) {
    && c < |s.cores| && s.cores[c].act.Visit?
    && var a := s.cores[c].act;
       && a.i < |s.procs|
       && t == SetAct(SetProc(s, a.i, Woken(s.procs[a.i], a.k).(lock := None)), c, Scan(a.l, a.k, a.i + 1, a.owed, a.intr))
  }

  predicate ScanDoneStep(s: State, c: Cpu, t: State) {
    && c < |s.cores| && s.cores[c].act.Scan? && s.cores[c].act.i == |s.procs|
    && t == SetAct(s, c, Critical(s.cores[c].act.l, s.cores[c].act.owed, s.cores[c].act.intr))
  }

  predicate WantSleepStep(s: State, c: Cpu, k: Chan, t: State) {
    && InCritical(s, c, k) && HasProc(s, c)
    && !s.cores[c].act.intr && s.cores[c].act.owed == {} && !s.conds[k]
    && t == SetAct(s, c, SleepWant(s.cores[c].act.l, k))
  }

  predicate SleepLockStep(s: State, c: Cpu, t: State) {
    && HasProc(s, c) && s.cores[c].act.SleepWant? && CanLock(s, s.cores[c].proc.value)
    && t == ProcLock(s, c, s.cores[c].proc.value, Some(c), SleepBoth(s.cores[c].act.l, s.cores[c].act.k))
  }

  predicate SleepReleaseStep(s: State, c: Cpu, t: State) {
    && c < |s.cores| && s.cores[c].act.SleepBoth? && s.cores[c].act.l < |s.lks|
    && t == SetAct(SetLk(s, s.cores[c].act.l, None), c, SleepLocked(s.cores[c].act.k))
  }

  predicate FallAsleepStep(s: State, c: Cpu, t: State) {
    && HasProc(s, c) && s.cores[c].act.SleepLocked?
    && var p, k := s.cores[c].proc.value, s.cores[c].act.k;
       t == SetAct(SetProc(s, p, s.procs[p].(chan := Some(k), state := Sleeping, context := AfterSleep(k))), c, Leaving)
  }

  predicate YieldLockStep(s: State, c: Cpu, t: State) {
    && HasProc(s, c) && s.cores[c].act.User? && CanLock(s, s.cores[c].proc.value)
    && t == ProcLock(s, c, s.cores[c].proc.value, Some(c), YieldLocked)
  }

  predicate GiveUpStep(s: State, c: Cpu, st: PState, t: State) {
    && HasProc(s, c) && s.cores[c].act.YieldLocked? && (st.Runnable? || st.Zombie?)
    && var p := s.cores[c].proc.value;
       t == SetAct(SetProc(s, p, s.procs[p].(state := st, context := AfterYield)), c, Leaving)
  }

  predicate TableLockStep(s: State, c: Cpu, p: Pid, t: State) {
    && c < |s.cores| && s.cores[c].act.User? && CanLock(s, p)
    && t == ProcLock(s, c, p, Some(c), Table(p))
  }

  predicate TableSetStep(s: State, c: Cpu, st: PState, t: State) {
    && c < |s.cores| && s.cores[c].act.Table? && s.cores[c].act.p < |s.procs|
    && var p := s.cores[c].act.p;
       match s.procs[p].state
       case Sleeping => st.Runnable? && t == SetProc(s, p, s.procs[p].(state := st))
       case Unused => st.Runnable? && t == SetProc(s, p, s.procs[p].(state := st, context := Fresh))
       case Zombie => st.Unused? && t == SetProc(s, p, s.procs[p].(state := st, chan := None))
       case _ => false
  }

  predicate TableUnlockStep(s: State, c: Cpu, t: State) {
    && c < |s.cores| && s.cores[c].act.Table? && s.cores[c].act.p < |s.procs|
    && t == ProcLock(s, c, s.cores[c].act.p, None, User)
  }

  predicate SchedulerStep(s: State, c: Cpu, e: Event, t: State) {
    match e
    case Pick(p) => PickStep(s, c, p, t)
    case Dispatch => DispatchStep(s, c, t)
    case Skip => SkipStep(s, c, t)
    case Switch => SwitchStep(s, c, t)
    case Drop => DropStep(s, c, t)
    case Resume => ResumeStep(s, c, t)
    case _ => false
  }

  predicate SleepStep(s: State, c: Cpu, e: Event, t: State) {
    match e
    case WantSleep(k) => WantSleepStep(s, c, k, t)
    case SleepLock => SleepLockStep(s, c, t)
    case SleepRelease => SleepReleaseStep(s, c, t)
    case FallAsleep => FallAsleepStep(s, c, t)
    case _ => false
  }

  predicate TableStep(s: State, c: Cpu, e: Event, t: State) {
    match e
    case YieldLock => YieldLockStep(s, c, t)
    case GiveUp(st) => GiveUpStep(s, c, st, t)
    case TableLock(p) => TableLockStep(s, c, p, t)
    case TableSet(st) => TableSetStep(s, c, st, t)
    case TableUnlock => TableUnlockStep(s, c, t)
    case _ => false
  }

  predicate WakeStep(s: State, c: Cpu, e: Event, t: State) {
    match e
    case Enter(l, intr) => EnterStep(s, c, l, intr, t)
    case Exit => ExitStep(s, c, t)
    case MakeTrue(k) => MakeTrueStep(s, c, k, t)
    case MakeFalse(k) => MakeFalseStep(s, c, k, t)
    case Wakeup(k) => WakeupStep(s, c, k, t)
    case ScanLock => ScanLockStep(s, c, t)
    case ScanVisit => ScanVisitStep(s, c, t)
    case ScanDone => ScanDoneStep(s, c, t)
    case _ => false
  }

  predicate Step(s: State, c: Cpu, e: Event, t: State) {
    SchedulerStep(s, c, e, t) || SleepStep(s, c, e, t) || TableStep(s, c, e, t) || WakeStep(s, c, e, t)
  }

  /** At boot every CPU is in its scheduler loop; some processes are runnable. */
  predicate Init(s: State) {
    && GuardsOk(s)
    && (forall c :: 0 <= c < |s.cores| ==> s.cores[c] == Core(None, Idle))
    && (forall p :: 0 <= p < |s.procs| ==>
          && s.procs[p].lock == None && s.procs[p].chan == None && s.procs[p].context == Fresh
          && (s.procs[p].state.Unused? || s.procs[p].state.Runnable?))
    && (forall l :: 0 <= l < |s.lks| ==> s.lks[l] == None)
  }

  // ---------------------------------------------------------------------
  // Invariant

  /** Every channel has a lock. */
  predicate GuardsOk(s: State) {
    |s.guard| == |s.conds| && forall k :: 0 <= k < |s.guard| ==> s.guard[k] < |s.lks|
  }

  /** Channel k is guarded by lock l. */
  predicate Guarded(s: State, l: Lk, k: Chan) {
    k < |s.guard| == |s.conds| && s.guard[k] == l < |s.lks|
  }

  /** The activity fits the process the CPU runs. */
  predicate CoreOk(s: State, c: Cpu)
    requires c < |s.cores|
  {
    var core := s.cores[c];
    && (core.proc.Some? ==> core.proc.value < |s.procs|)
    && (core.proc.Some? && !core.act.Leaving? ==> s.procs[core.proc.value].state.Running?)
    && match core.act
       case Idle => core.proc == None
       case Picked(p) => core.proc == None && p < |s.procs|
       case Dropping(p) => core.proc == None && p < |s.procs| && !s.procs[p].state.Running?
       case Critical(l, owed, intr) => l < |s.lks| && (core.proc == None ==> intr)
       case Scan(l, k, i, owed, intr) => Guarded(s, l, k) && i <= |s.procs| && (core.proc == None ==> intr)
       case Visit(l, k, i, owed, intr) => Guarded(s, l, k) && i < |s.procs| && (core.proc == None ==> intr)
       case SleepWant(l, k) => core.proc.Some? && Guarded(s, l, k) && !s.conds[k]
       case SleepBoth(l, k) => core.proc.Some? && Guarded(s, l, k) && !s.conds[k]
       case SleepLocked(k) => core.proc.Some? && k < |s.conds|
       case Reacquire(k) => core.proc.Some?
       case Leaving => core.proc.Some? && !s.procs[core.proc.value].state.Running?
       case Table(p) => core.proc.Some? && p < |s.procs|
       case _ => core.proc.Some?
  }

  /** p sleeps on k, or has released lk on its way to sleep there. */
  ghost predicate Waiting(s: State, p: Pid, k: Chan)
    requires p < |s.procs|
  {
    || (s.procs[p].state.Sleeping? && s.procs[p].chan == Some(k))
    || exists c :: 0 <= c < |s.cores| && s.cores[c] == Core(Some(p), SleepLocked(k))
  }

  /** CPU c owes a wakeup on k, or is in it and its scan has not passed p. */
  predicate WillWake(s: State, c: Cpu, p: Pid, k: Chan) {
    && c < |s.cores|
    && match s.cores[c].act
       case Critical(_, owed, _) => k in owed
       case Scan(_, j, i, owed, _) => (j == k && i <= p) || k in owed
       case Visit(_, j, i, owed, _) => (j == k && i <= p) || k in owed
       case _ => false
  }

  /** No lost wakeup: while somebody waits for a condition that is true, the holder
      of the condition's lock is about to wake that process. */
  ghost predicate Safe(s: State, p: Pid, k: Chan)
    requires p < |s.procs| && GuardsOk(s) && k < |s.conds|
  {
    s.conds[k] && Waiting(s, p, k) ==> s.lks[s.guard[k]].Some? && WillWake(s, s.lks[s.guard[k]].value, p, k)
  }

  /** Locks are held by exactly the CPU whose activity says so. */
  ghost predicate LocksOk(s: State) {
    && (forall c, p :: 0 <= c < |s.cores| && 0 <= p < |s.procs| ==>
          (s.procs[p].lock == Some(c) <==> HoldsProc(s.cores[c], p)))
    && (forall c, l :: 0 <= c < |s.cores| && 0 <= l < |s.lks| ==>
          (s.lks[l] == Some(c) <==> HoldsLk(s.cores[c], l)))
    && (forall p :: 0 <= p < |s.procs| && s.procs[p].lock.Some? ==> s.procs[p].lock.value < |s.cores|)
    && (forall l :: 0 <= l < |s.lks| && s.lks[l].Some? ==> s.lks[l].value < |s.cores|)
  }

  ghost predicate CoresOk(s: State) {
    forall c :: 0 <= c < |s.cores| ==> CoreOk(s, c)
  }

  /** No process is current on two CPUs. */
  ghost predicate CurrentOnce(s: State) {
    forall c, d :: 0 <= c < |s.cores| && 0 <= d < |s.cores| && s.cores[c].proc.Some? ==>
      s.cores[c].proc != s.cores[d].proc || c == d
  }

  ghost predicate NoLostWakeup(s: State)
    requires GuardsOk(s)
  {
    forall p, k :: 0 <= p < |s.procs| && 0 <= k < |s.conds| ==> Safe(s, p, k)
  }

  ghost predicate Inv(s: State) {
    && GuardsOk(s)
    && LocksOk(s)
    && CoresOk(s)
    && CurrentOnce(s)
    && NoLostWakeup(s)
  }

  lemma InitInv(s: State)
    requires Init(s)
    ensures Inv(s)
  {
  }

  // ---------------------------------------------------------------------
  // What a step of CPU c may touch

  /** Its own activity, the state of processes whose lock it holds, and conditions whose
      lock it holds. */
  ghost predicate Framed(s: State, c: Cpu, t: State) {
    && c < |s.cores| == |t.cores| && |s.procs| == |t.procs|
    && |s.lks| == |t.lks| && s.guard == t.guard && |s.conds| == |t.conds|
    && (forall d :: 0 <= d < |s.cores| && d != c ==> t.cores[d] == s.cores[d])
    && (forall p :: 0 <= p < |s.procs| && t.procs[p].state != s.procs[p].state ==>
          HoldsProc(s.cores[c], p) && (s.procs[p].state.Running? ==> s.cores[c].proc == Some(p)))
    && (forall k :: 0 <= k < |s.conds| && t.conds[k] != s.conds[k] ==> k < |s.guard| && HoldsLk(s.cores[c], s.guard[k]))
  }

  lemma SchedulerFramed(s: State, c: Cpu, e: Event, t: State)
    requires Inv(s) && SchedulerStep(s, c, e, t)
    ensures Framed(s, c, t)
  {
    hide NoLostWakeup, CurrentOnce, HoldsLk, LocksOk, GuardsOk;
    assert CoreOk(s, c);
  }

  lemma SleepFramed(s: State, c: Cpu, e: Event, t: State)
    requires Inv(s) && SleepStep(s, c, e, t)
    ensures Framed(s, c, t)
  {
    hide NoLostWakeup, CurrentOnce, HoldsLk, LocksOk, GuardsOk;
    assert CoreOk(s, c);
  }

  lemma TableFramed(s: State, c: Cpu, e: Event, t: State)
    requires Inv(s) && TableStep(s, c, e, t)
    ensures Framed(s, c, t)
  {
    hide NoLostWakeup, CurrentOnce, HoldsLk, LocksOk, GuardsOk;
    assert CoreOk(s, c);
  }

  lemma WakeFramed(s: State, c: Cpu, e: Event, t: State)
    requires Inv(s) && WakeStep(s, c, e, t)
    ensures Framed(s, c, t)
  {
    hide NoLostWakeup, CurrentOnce, LocksOk, GuardsOk;
    assert CoreOk(s, c);
  }

  lemma StepFramed(s: State, c: Cpu, e: Event, t: State)
    requires Inv(s) && Step(s, c, e, t)
    ensures Framed(s, c, t)
  {
    hide Inv, Framed, SchedulerStep, SleepStep, TableStep, WakeStep;
    if SchedulerStep(s, c, e, t) {
      SchedulerFramed(s, c, e, t);
    } else if SleepStep(s, c, e, t) {
      SleepFramed(s, c, e, t);
    } else if TableStep(s, c, e, t) {
      TableFramed(s, c, e, t);
    } else {
      WakeFramed(s, c, e, t);
    }
  }

  // ---------------------------------------------------------------------
  // Locks

  /** A lock changes hands only between free and the CPU that takes the step. */
  predicate Handed(before: Option<Cpu>, c: Cpu, after: Option<Cpu>) {
    before == after || (before == None && after == Some(c)) || (before == Some(c) && after == None)
  }

  /** The locks of c before and after a step. */
  predicate OwnLocks(s: State, c: Cpu, t: State, p: Pid) {
    c < |s.cores| == |t.cores| && p < |s.procs| == |t.procs| &&
    (t.procs[p].lock == Some(c) <==> HoldsProc(t.cores[c], p)) && Handed(s.procs[p].lock, c, t.procs[p].lock)
  }

  lemma SchedulerLocks(s: State, c: Cpu, e: Event, t: State, p: Pid)
    requires c < |s.cores| && CoreOk(s, c) && SchedulerStep(s, c, e, t) && p < |s.procs|
    requires s.procs[p].lock == Some(c) <==> HoldsProc(s.cores[c], p)
    ensures OwnLocks(s, c, t, p)
  {
    hide HoldsLk;
  }

  lemma SleepLocks(s: State, c: Cpu, e: Event, t: State, p: Pid)
    requires c < |s.cores| && CoreOk(s, c) && SleepStep(s, c, e, t) && p < |s.procs|
    requires s.procs[p].lock == Some(c) <==> HoldsProc(s.cores[c], p)
    ensures OwnLocks(s, c, t, p)
  {
    hide HoldsLk;
  }

  lemma TableLocks(s: State, c: Cpu, e: Event, t: State, p: Pid)
    requires c < |s.cores| && CoreOk(s, c) && TableStep(s, c, e, t) && p < |s.procs|
    requires s.procs[p].lock == Some(c) <==> HoldsProc(s.cores[c], p)
    ensures OwnLocks(s, c, t, p)
  {
    hide HoldsLk;
  }

  lemma WakeLocks(s: State, c: Cpu, e: Event, t: State, p: Pid)
    requires c < |s.cores| && CoreOk(s, c) && WakeStep(s, c, e, t) && p < |s.procs|
    requires s.procs[p].lock == Some(c) <==> HoldsProc(s.cores[c], p)
    ensures OwnLocks(s, c, t, p)
  {
    hide HoldsLk;
  }

  lemma StepProcLock(s: State, c: Cpu, e: Event, t: State, p: Pid)
    requires c < |s.cores| && CoreOk(s, c) && Step(s, c, e, t) && p < |s.procs|
    requires s.procs[p].lock == Some(c) <==> HoldsProc(s.cores[c], p)
    ensures OwnLocks(s, c, t, p)
  {
    hide CoreOk, OwnLocks, HoldsProc, SchedulerStep, SleepStep, TableStep, WakeStep;
    if SchedulerStep(s, c, e, t) {
      SchedulerLocks(s, c, e, t, p);
    } else if SleepStep(s, c, e, t) {
      SleepLocks(s, c, e, t, p);
    } else if TableStep(s, c, e, t) {
      TableLocks(s, c, e, t, p);
    } else {
      WakeLocks(s, c, e, t, p);
    }
  }

  /** Only two of the groups of steps touch these locks. */
  lemma StepChanLock(s: State, c: Cpu, e: Event, t: State, l: Lk)
    requires c < |s.cores| && CoreOk(s, c) && Step(s, c, e, t) && c < |t.cores| && l < |t.lks| == |s.lks|
    requires s.lks[l] == Some(c) <==> HoldsLk(s.cores[c], l)
    ensures t.lks[l] == Some(c) <==> HoldsLk(t.cores[c], l)
    ensures Handed(s.lks[l], c, t.lks[l])
  {
    hide CoreOk, HoldsLk, SchedulerStep, SleepStep, TableStep, WakeStep;
    if SchedulerStep(s, c, e, t) || TableStep(s, c, e, t) {
      QuietChanLock(s, c, e, t, l);
    } else if SleepStep(s, c, e, t) {
      SleepChanLock(s, c, e, t, l);
    } else {
      WakeChanLock(s, c, e, t, l);
    }
  }

  lemma QuietChanLock(s: State, c: Cpu, e: Event, t: State, l: Lk)
    requires SchedulerStep(s, c, e, t) || TableStep(s, c, e, t)
    requires c < |s.cores| && c < |t.cores| && l < |t.lks| == |s.lks|
    ensures t.lks[l] == s.lks[l] && !HoldsLk(s.cores[c], l) && !HoldsLk(t.cores[c], l)
  {
  }

  lemma SleepChanLock(s: State, c: Cpu, e: Event, t: State, l: Lk)
    requires c < |s.cores| && SleepStep(s, c, e, t) && c < |t.cores| && l < |t.lks| == |s.lks|
    requires s.lks[l] == Some(c) <==> HoldsLk(s.cores[c], l)
    ensures t.lks[l] == Some(c) <==> HoldsLk(t.cores[c], l)
    ensures Handed(s.lks[l], c, t.lks[l])
  {
  }

  lemma WakeChanLock(s: State, c: Cpu, e: Event, t: State, l: Lk)
    requires c < |s.cores| && WakeStep(s, c, e, t) && c < |t.cores| && l < |t.lks| == |s.lks|
    requires s.lks[l] == Some(c) <==> HoldsLk(s.cores[c], l)
    ensures t.lks[l] == Some(c) <==> HoldsLk(t.cores[c], l)
    ensures Handed(s.lks[l], c, t.lks[l])
  {
  }

  lemma StepLocks(s: State, c: Cpu, e: Event, t: State)
    requires Inv(s) && Step(s, c, e, t) && Framed(s, c, t)
    ensures LocksOk(t)
  {
    hide NoLostWakeup, CurrentOnce, CoreOk, Step, HoldsProc, HoldsLk, GuardsOk;
    forall p | 0 <= p < |t.procs|
      ensures t.procs[p].lock == Some(c) <==> HoldsProc(t.cores[c], p)
      ensures Handed(s.procs[p].lock, c, t.procs[p].lock)
    {
      StepProcLock(s, c, e, t, p);
    }
    forall l | 0 <= l < |t.lks|
      ensures t.lks[l] == Some(c) <==> HoldsLk(t.cores[c], l)
      ensures Handed(s.lks[l], c, t.lks[l])
    {
      StepChanLock(s, c, e, t, l);
    }
  }

  /** A lock has one holder. */
  lemma ProcLockExclusive(s: State, c: Cpu, d: Cpu, p: Pid)
    requires LocksOk(s) && c < |s.cores| && d < |s.cores| && p < |s.procs|
    requires c != d && HoldsProc(s.cores[d], p)
    ensures !HoldsProc(s.cores[c], p)
  {
    assert s.procs[p].lock == Some(d);
  }

  lemma ChanLockExclusive(s: State, c: Cpu, d: Cpu, l: Lk)
    requires LocksOk(s) && c < |s.cores| && d < |s.cores| && l < |s.lks|
    requires c != d && HoldsLk(s.cores[d], l)
    ensures !HoldsLk(s.cores[c], l)
  {
    assert s.lks[l] == Some(d);
  }

  // ---------------------------------------------------------------------
  // Cores

  lemma SchedulerCore(s: State, c: Cpu, e: Event, t: State)
    requires Inv(s) && SchedulerStep(s, c, e, t)
    ensures CoreOk(t, c)
  {
    hide NoLostWakeup, CurrentOnce, GuardsOk;
    assert CoreOk(s, c);
  }

  lemma SleepCore(s: State, c: Cpu, e: Event, t: State)
    requires Inv(s) && SleepStep(s, c, e, t)
    ensures CoreOk(t, c)
  {
    hide NoLostWakeup, CurrentOnce;
    assert CoreOk(s, c);
  }

  lemma TableCore(s: State, c: Cpu, e: Event, t: State)
    requires Inv(s) && TableStep(s, c, e, t)
    ensures CoreOk(t, c)
  {
    hide NoLostWakeup, CurrentOnce, GuardsOk;
    assert CoreOk(s, c);
  }

  lemma WakeCore(s: State, c: Cpu, e: Event, t: State)
    requires Inv(s) && WakeStep(s, c, e, t)
    ensures CoreOk(t, c)
  {
    hide NoLostWakeup, CurrentOnce;
    assert CoreOk(s, c);
  }

  lemma OwnCore(s: State, c: Cpu, e: Event, t: State)
    requires Inv(s) && Step(s, c, e, t) && c < |t.cores|
    ensures CoreOk(t, c)
  {
    hide Inv, CoreOk, SchedulerStep, SleepStep, TableStep, WakeStep;
    if SchedulerStep(s, c, e, t) {
      SchedulerCore(s, c, e, t);
    } else if SleepStep(s, c, e, t) {
      SleepCore(s, c, e, t);
    } else if TableStep(s, c, e, t) {
      TableCore(s, c, e, t);
    } else {
      WakeCore(s, c, e, t);
    }
  }

  lemma OtherCore(s: State, c: Cpu, t: State, d: Cpu)
    requires Inv(s) && Framed(s, c, t) && d < |t.cores| && d != c
    ensures CoreOk(t, d)
  {
    hide NoLostWakeup;
    assert CoreOk(s, d);
    if s.cores[d].act.Leaving? {
      ProcLockExclusive(s, c, d, s.cores[d].proc.value);
    }
    if s.cores[d].act.Dropping? {
      ProcLockExclusive(s, c, d, s.cores[d].act.p);
    }
    if s.cores[d].act.SleepWant? || s.cores[d].act.SleepBoth? {
      ChanLockExclusive(s, c, d, s.cores[d].act.l);
    }
  }

  /** Only the scheduler makes a process current: one that is not RUNNING. */
  lemma StepProc(s: State, c: Cpu, e: Event, t: State)
    requires Step(s, c, e, t) && c < |s.cores| == |t.cores|
    ensures t.cores[c].proc == s.cores[c].proc || t.cores[c].proc == None
         || (t.cores[c].proc.value < |s.procs| && s.procs[t.cores[c].proc.value].state.Runnable? && s.cores[c].act == Picked(t.cores[c].proc.value))
  {
  }

  lemma StepCurrent(s: State, c: Cpu, e: Event, t: State, d: Cpu)
    requires Inv(s) && Step(s, c, e, t) && Framed(s, c, t) && d < |t.cores| && d != c && t.cores[c].proc.Some?
    ensures t.cores[c].proc != t.cores[d].proc
  {
    StepProc(s, c, e, t);
    hide NoLostWakeup, Step, GuardsOk;
    assert CoreOk(s, c) && CoreOk(s, d);
    if s.cores[d].act.Leaving? && s.cores[c].act.Picked? {
      var p := s.cores[c].act.p;
      if s.cores[d].proc == Some(p) {
        ProcLockExclusive(s, c, d, p);
      }
    }
  }

  // ---------------------------------------------------------------------
  // Wakeups

  lemma SchedulerSafe(s: State, c: Cpu, e: Event, t: State, p: Pid, k: Chan)
    requires Inv(s) && SchedulerStep(s, c, e, t) && GuardsOk(t) && p < |t.procs| && k < |t.conds|
    ensures Safe(t, p, k)
  {
    hide CurrentOnce, HoldsProc;
    assert CoreOk(s, c) && Safe(s, p, k);
  }

  lemma SleepSafe(s: State, c: Cpu, e: Event, t: State, p: Pid, k: Chan)
    requires Inv(s) && SleepStep(s, c, e, t) && GuardsOk(t) && p < |t.procs| && k < |t.conds|
    ensures Safe(t, p, k)
  {
    hide CurrentOnce, HoldsProc;
    assert CoreOk(s, c) && Safe(s, p, k);
  }

  /** Nobody begins to wait, and the locks and conditions stay. */
  lemma TableWaits(s: State, c: Cpu, e: Event, t: State, p: Pid, k: Chan)
    requires c < |s.cores| && CoreOk(s, c) && TableStep(s, c, e, t) && p < |t.procs| == |s.procs| && Waiting(t, p, k)
    ensures Waiting(s, p, k)
  {
    if !(t.procs[p].state.Sleeping? && t.procs[p].chan == Some(k)) {
      var d :| 0 <= d < |t.cores| && t.cores[d] == Core(Some(p), SleepLocked(k));
      assert s.cores[d] == Core(Some(p), SleepLocked(k));
    }
  }

  lemma TableKeeps(s: State, c: Cpu, e: Event, t: State)
    requires TableStep(s, c, e, t)
    ensures t.lks == s.lks && t.conds == s.conds && t.guard == s.guard && |t.procs| == |s.procs|
    ensures c < |s.cores| == |t.cores| && forall d :: 0 <= d < |s.cores| && d != c ==> t.cores[d] == s.cores[d]
    ensures s.cores[c].act.User? || s.cores[c].act.YieldLocked? || s.cores[c].act.Table?
  {
  }

  lemma TableSafe(s: State, c: Cpu, e: Event, t: State, p: Pid, k: Chan)
    requires Inv(s) && TableStep(s, c, e, t) && GuardsOk(t) && p < |t.procs| && k < |t.conds|
    ensures Safe(t, p, k)
  {
    hide CurrentOnce, HoldsProc;
    TableKeeps(s, c, e, t);
    assert CoreOk(s, c) && Safe(s, p, k);
    if t.conds[k] && Waiting(t, p, k) {
      TableWaits(s, c, e, t, p, k);
      hide TableStep, Waiting;
    }
  }

  predicate InScan(e: Event) {
    e.ScanLock? || e.ScanVisit? || e.ScanDone?
  }

  /** The process visited is not on its way to sleep elsewhere: its lock is held here. */
  lemma VisitedAwake(s: State, c: Cpu, d: Cpu, k: Chan)
    requires Inv(s) && c < |s.cores| && d < |s.cores| && s.cores[c].act.Visit?
    ensures s.cores[d] != Core(Some(s.cores[c].act.i), SleepLocked(k))
  {
    hide NoLostWakeup, CurrentOnce, HoldsLk, GuardsOk;
    assert CoreOk(s, c);
    if s.cores[d] == Core(Some(s.cores[c].act.i), SleepLocked(k)) {
      ProcLockExclusive(s, c, d, s.cores[c].act.i);
    }
  }

  lemma ScanSafe(s: State, c: Cpu, e: Event, t: State, p: Pid, k: Chan)
    requires Inv(s) && WakeStep(s, c, e, t) && InScan(e) && GuardsOk(t) && p < |t.procs| && k < |t.conds|
    ensures Safe(t, p, k)
  {
    hide CurrentOnce, HoldsProc;
    assert CoreOk(s, c) && Safe(s, p, k);
    if e.ScanVisit? {
      forall d | 0 <= d < |s.cores| ensures s.cores[d] != Core(Some(s.cores[c].act.i), SleepLocked(k)) {
        VisitedAwake(s, c, d, k);
      }
    }
  }

  lemma WakeSafe(s: State, c: Cpu, e: Event, t: State, p: Pid, k: Chan)
    requires Inv(s) && WakeStep(s, c, e, t) && GuardsOk(t) && p < |t.procs| && k < |t.conds|
    ensures Safe(t, p, k)
  {
    if InScan(e) {
      ScanSafe(s, c, e, t, p, k);
    } else {
      hide CurrentOnce, HoldsProc;
      assert CoreOk(s, c) && Safe(s, p, k);
    }
  }

  lemma StepSafe(s: State, c: Cpu, e: Event, t: State, p: Pid, k: Chan)
    requires Inv(s) && Step(s, c, e, t) && GuardsOk(t) && p < |t.procs| && k < |t.conds|
    ensures Safe(t, p, k)
  {
    hide Inv, Safe, SchedulerStep, SleepStep, TableStep, WakeStep, GuardsOk;
    if SchedulerStep(s, c, e, t) {
      SchedulerSafe(s, c, e, t, p, k);
    } else if SleepStep(s, c, e, t) {
      SleepSafe(s, c, e, t, p, k);
    } else if TableStep(s, c, e, t) {
      TableSafe(s, c, e, t, p, k);
    } else {
      WakeSafe(s, c, e, t, p, k);
    }
  }

  lemma StepInv(s: State, c: Cpu, e: Event, t: State)
    requires Inv(s) && Step(s, c, e, t)
    ensures Inv(t)
  {
    hide Step, LocksOk, CoreOk, Safe;
    StepFramed(s, c, e, t);
    StepLocks(s, c, e, t);
    forall d | 0 <= d < |t.cores| ensures CoreOk(t, d) {
      if d == c {
        OwnCore(s, c, e, t);
      } else {
        OtherCore(s, c, t, d);
      }
    }
    forall d | 0 <= d < |t.cores| && d != c && t.cores[c].proc.Some? ensures t.cores[c].proc != t.cores[d].proc {
      StepCurrent(s, c, e, t, d);
    }
    forall p, k | 0 <= p < |t.procs| && 0 <= k < |t.conds| ensures Safe(t, p, k) {
      StepSafe(s, c, e, t, p, k);
    }
  }

  // ---------------------------------------------------------------------
  // Whole runs

  /** events[i] is performed by CPU who[i]. */
  ghost predicate IsRun(run: seq<State>, who: seq<Cpu>, events: seq<Event>) {
    && |run| == |events| + 1 == |who| + 1
    && Init(run[0])
    && forall i :: 0 <= i < |events| ==> Step(run[i], who[i], events[i], run[i + 1])
  }

  lemma {:induction false} RunInv(run: seq<State>, who: seq<Cpu>, events: seq<Event>, n: nat)
    requires IsRun(run, who, events) && n < |run|
    ensures Inv(run[n])
  {
    if n == 0 {
      InitInv(run[0]);
    } else {
      hide Step;
      var k := n - 1;
      RunInv(run, who, events, k);
      StepInv(run[k], who[k], events[k], run[k + 1]);
    }
  }

  /** In every reachable state: a process waiting for a true condition is about to be
      woken by the holder of the condition's lock, so once that lock is free nobody
      waits for a true condition; no process is current on two CPUs; and sched's
      checks succeed wherever it is called: p->lock is held, no other lock is, and the
      process is not RUNNING. */
  lemma SchedulingSafe(run: seq<State>, who: seq<Cpu>, events: seq<Event>, n: nat)
    requires IsRun(run, who, events) && n < |run|
    ensures var s := run[n];
            && GuardsOk(s)
            && (forall p, k :: 0 <= p < |s.procs| && 0 <= k < |s.conds| && s.conds[k] && Waiting(s, p, k) ==>
                  s.lks[s.guard[k]].Some? && WillWake(s, s.lks[s.guard[k]].value, p, k))
            && (forall c, d :: 0 <= c < |s.cores| && 0 <= d < |s.cores| && s.cores[c].proc.Some? ==>
                  s.cores[c].proc != s.cores[d].proc || c == d)
            && (forall c :: 0 <= c < |s.cores| && s.cores[c].act.Leaving? ==>
                  && HasProc(s, c)
                  && s.procs[s.cores[c].proc.value].lock == Some(c)
                  && !s.procs[s.cores[c].proc.value].state.Running?
                  && (forall p :: 0 <= p < |s.procs| && s.procs[p].lock == Some(c) ==> s.cores[c].proc == Some(p))
                  && forall l :: 0 <= l < |s.lks| ==> s.lks[l] != Some(c))
  {
    RunInv(run, who, events, n);
    var s := run[n];
    forall p, k | 0 <= p < |s.procs| && 0 <= k < |s.conds| && s.conds[k] && Waiting(s, p, k)
      ensures s.lks[s.guard[k]].Some? && WillWake(s, s.lks[s.guard[k]].value, p, k)
    {
      assert Safe(s, p, k);
    }
    forall c | 0 <= c < |s.cores| && s.cores[c].act.Leaving?
      ensures HasProc(s, c) && s.procs[s.cores[c].proc.value].lock == Some(c)
      ensures !s.procs[s.cores[c].proc.value].state.Running?
      ensures forall p :: 0 <= p < |s.procs| && s.procs[p].lock == Some(c) ==> s.cores[c].proc == Some(p)
    {
      assert CoreOk(s, c);
      assert HoldsProc(s.cores[c], s.cores[c].proc.value);
    }
  }

  // ---------------------------------------------------------------------
  // Which changes of a process there are, and who makes them

  /** The state and the channel of p stay, or change as the scheduler, wakeup, sleep, yield,
      exit, kill, fork or wait may change them. */
  ghost predicate Change(core: Core, e: Event, p: Pid, a: Proc, b: Proc) {
    || (b.state == a.state && b.chan == a.chan)
    || (e.Dispatch? && core.act == Picked(p) && a.state.Runnable? && b.state.Running? && b.chan == a.chan)
    || (e.ScanVisit? && Visits(core, p, a.chan) && a.state.Sleeping? && b.state.Runnable? && b.chan == a.chan)
    || (core.proc == Some(p) && a.state.Running? &&
        (|| (e.FallAsleep? && core.act.SleepLocked? && b.state.Sleeping? && b.chan == Some(core.act.k))
         || (e.Resume? && b.state.Running? && b.chan == None)
         || (e.GiveUp? && (b.state.Runnable? || b.state.Zombie?) && b.chan == a.chan)))
    || (e.TableSet? && core.act == Table(p) &&
        (|| (a.state.Sleeping? && b.state.Runnable? && b.chan == a.chan)
         || (a.state.Unused? && b.state.Runnable? && b.chan == a.chan)
         || (a.state.Zombie? && b.state.Unused? && b.chan == None)))
  }

  /** The scan of a wakeup on the channel has come to p. */
  predicate Visits(core: Core, p: Pid, chan: Option<Chan>) {
    core.act.Visit? && core.act.i == p && chan == Some(core.act.k)
  }

  lemma SchedulerChange(s: State, c: Cpu, e: Event, t: State, p: Pid)
    requires Inv(s) && SchedulerStep(s, c, e, t) && p < |s.procs| == |t.procs| && c < |s.cores|
    ensures Change(s.cores[c], e, p, s.procs[p], t.procs[p])
  {
    hide NoLostWakeup, CurrentOnce, LocksOk, GuardsOk;
    assert CoreOk(s, c);
  }

  lemma SleepChange(s: State, c: Cpu, e: Event, t: State, p: Pid)
    requires Inv(s) && SleepStep(s, c, e, t) && p < |s.procs| == |t.procs| && c < |s.cores|
    ensures Change(s.cores[c], e, p, s.procs[p], t.procs[p])
  {
    hide NoLostWakeup, CurrentOnce, LocksOk, GuardsOk;
    assert CoreOk(s, c);
  }

  lemma TableChange(s: State, c: Cpu, e: Event, t: State, p: Pid)
    requires Inv(s) && TableStep(s, c, e, t) && p < |s.procs| == |t.procs| && c < |s.cores|
    ensures Change(s.cores[c], e, p, s.procs[p], t.procs[p])
  {
    hide NoLostWakeup, CurrentOnce, LocksOk, GuardsOk;
    assert CoreOk(s, c);
  }

  lemma WakeChange(s: State, c: Cpu, e: Event, t: State, p: Pid)
    requires WakeStep(s, c, e, t) && p < |s.procs| == |t.procs| && c < |s.cores|
    ensures Change(s.cores[c], e, p, s.procs[p], t.procs[p])
  {
  }

  lemma StepChange(s: State, c: Cpu, e: Event, t: State, p: Pid)
    requires Inv(s) && Step(s, c, e, t) && p < |s.procs|
    ensures c < |s.cores| && |s.procs| == |t.procs| && Change(s.cores[c], e, p, s.procs[p], t.procs[p])
  {
    hide Inv, Framed, Change, SchedulerStep, SleepStep, TableStep, WakeStep;
    StepFramed(s, c, e, t);
    FramedSizes(s, c, t);
    if SchedulerStep(s, c, e, t) {
      SchedulerChange(s, c, e, t, p);
    } else if SleepStep(s, c, e, t) {
      SleepChange(s, c, e, t, p);
    } else if TableStep(s, c, e, t) {
      TableChange(s, c, e, t, p);
    } else {
      WakeChange(s, c, e, t, p);
    }
  }

  lemma FramedSizes(s: State, c: Cpu, t: State)
    requires Framed(s, c, t)
    ensures c < |s.cores| == |t.cores| && |s.procs| == |t.procs|
  {
  }

  lemma {:induction false} RunSizes(run: seq<State>, who: seq<Cpu>, events: seq<Event>, n: nat)
    requires IsRun(run, who, events) && n < |run|
    ensures |run[n].procs| == |run[0].procs|
  {
    hide Step, Inv, Framed;
    if n > 0 {
      RunSizes(run, who, events, n - 1);
      RunInv(run, who, events, n - 1);
      StepFramed(run[n - 1], who[n - 1], events[n - 1], run[n]);
      FramedSizes(run[n - 1], who[n - 1], run[n]);
    }
  }

  /** In every step of every run each process changes in one of these ways only. */
  lemma RunChanges(run: seq<State>, who: seq<Cpu>, events: seq<Event>, n: nat, p: Pid)
    requires IsRun(run, who, events) && n < |events| && p < |run[0].procs|
    ensures who[n] < |run[n].cores| && |run[n].procs| == |run[n + 1].procs| == |run[0].procs|
    ensures Change(run[n].cores[who[n]], events[n], p, run[n].procs[p], run[n + 1].procs[p])
  {
    hide Step, Inv, Change;
    RunInv(run, who, events, n);
    RunSizes(run, who, events, n);
    StepChange(run[n], who[n], events[n], run[n + 1], p);
  }

  /** A wakeup on the channel of p visits p, or kill has it. */
  predicate Rouses(s: State, c: Cpu, e: Event, p: Pid)
    requires c < |s.cores| && p < |s.procs|
  {
    (e.ScanVisit? && Visits(s.cores[c], p, s.procs[p].chan)) || (e.TableSet? && s.cores[c].act == Table(p))
  }

  /** Until then a process asleep sleeps on, on the same channel. */
  lemma {:induction false} SleepsOn(run: seq<State>, who: seq<Cpu>, events: seq<Event>, i: nat, j: nat, p: Pid)
    requires IsRun(run, who, events) && i <= j < |run| && p < |run[0].procs|
    requires |run[i].procs| == |run[0].procs| && run[i].procs[p].state.Sleeping?
    requires forall n :: i <= n < j ==> who[n] < |run[n].cores| && p < |run[n].procs| && !Rouses(run[n], who[n], events[n], p)
    ensures |run[j].procs| == |run[0].procs|
    ensures run[j].procs[p].state.Sleeping? && run[j].procs[p].chan == run[i].procs[p].chan
    decreases j
  {
    hide Step;
    if i < j {
      SleepsOn(run, who, events, i, j - 1, p);
      RunChanges(run, who, events, j - 1, p);
    }
  }

  // ---------------------------------------------------------------------
  // A wakeup that returns has woken all that waited

  /** Processes that the scan of c has passed do not wait on its channel. */
  ghost predicate Passed(s: State, c: Cpu, p: Pid)
    requires c < |s.cores| && p < |s.procs|
  {
    var a := s.cores[c].act;
    (a.Scan? || a.Visit?) && p < a.i ==> !Waiting(s, p, a.k)
  }

  lemma ToSleepLocked(s: State, c: Cpu, e: Event, t: State)
    requires Step(s, c, e, t) && c < |s.cores| == |t.cores| && t.cores[c].act.SleepLocked?
    ensures s.cores[c].act.SleepBoth? && s.cores[c].act.k == t.cores[c].act.k
  {
  }

  /** Only sleep makes a process wait, and it does so with the lock of the channel. */
  lemma BeginsToWait(s: State, c: Cpu, e: Event, t: State, p: Pid, k: Chan)
    requires Inv(s) && Step(s, c, e, t) && Framed(s, c, t) && p < |t.procs| && Waiting(t, p, k)
    ensures Waiting(s, p, k) || (s.cores[c].act.SleepBoth? && s.cores[c].act.k == k)
  {
    hide Step, Inv;
    StepChange(s, c, e, t, p);
    if t.procs[p].state.Sleeping? && t.procs[p].chan == Some(k) {
      assert e.FallAsleep? && s.cores[c].act == SleepLocked(k) && s.cores[c].proc == Some(p) ==> s.cores[c] == Core(Some(p), SleepLocked(k));
    } else {
      var d :| 0 <= d < |t.cores| && t.cores[d] == Core(Some(p), SleepLocked(k));
      if d == c {
        ToSleepLocked(s, c, e, t);
      } else {
        assert s.cores[d] == Core(Some(p), SleepLocked(k));
      }
    }
  }

  /** No process goes to sleep on the channel while another CPU scans for it. */
  lemma NoneBegins(s: State, c: Cpu, d: Cpu, k: Chan)
    requires Inv(s) && c < |s.cores| && d < |s.cores| && (s.cores[d].act.Scan? || s.cores[d].act.Visit?) && s.cores[d].act.k == k
    ensures !(s.cores[c].act.SleepBoth? && s.cores[c].act.k == k)
  {
    hide NoLostWakeup, CurrentOnce, HoldsProc;
    assert CoreOk(s, c) && CoreOk(s, d);
    assert s.lks[s.guard[k]] == Some(d);
  }

  lemma OtherPassed(s: State, c: Cpu, e: Event, t: State, d: Cpu, p: Pid)
    requires Inv(s) && Step(s, c, e, t) && Framed(s, c, t) && d < |t.cores| && p < |t.procs| && d != c && Passed(s, d, p)
    ensures Passed(t, d, p)
  {
    hide Step, Inv, Waiting;
    var a := s.cores[d].act;
    if (a.Scan? || a.Visit?) && p < a.i && Waiting(t, p, a.k) {
      BeginsToWait(s, c, e, t, p, a.k);
      NoneBegins(s, c, d, a.k);
    }
  }

  lemma ScanMoves(s: State, c: Cpu, e: Event, t: State)
    requires Step(s, c, e, t) && c < |s.cores| == |t.cores| && (t.cores[c].act.Scan? || t.cores[c].act.Visit?)
    ensures t.cores[c].act.i == 0 || ((s.cores[c].act.Scan? || s.cores[c].act.Visit?) && t.cores[c].act.k == s.cores[c].act.k)
    ensures t.cores[c].act.i > 0 ==> t.cores[c].act.i == s.cores[c].act.i || (e.ScanVisit? && ScanVisitStep(s, c, t) && t.cores[c].act.i == s.cores[c].act.i + 1)
  {
    hide SchedulerStep, SleepStep, TableStep;
    OnlyWakeScans(s, c, e, t);
  }

  lemma OnlyWakeScans(s: State, c: Cpu, e: Event, t: State)
    requires Step(s, c, e, t) && c < |s.cores| == |t.cores| && (t.cores[c].act.Scan? || t.cores[c].act.Visit?)
    ensures WakeStep(s, c, e, t)
  {
    hide WakeStep;
  }

  lemma OwnPassed(s: State, c: Cpu, e: Event, t: State, p: Pid)
    requires Inv(s) && Step(s, c, e, t) && Framed(s, c, t) && p < |t.procs| && Passed(s, c, p)
    ensures Passed(t, c, p)
  {
    hide Step, Inv, Waiting, ScanVisitStep;
    var a := t.cores[c].act;
    if (a.Scan? || a.Visit?) && p < a.i {
      ScanMoves(s, c, e, t);
      if p < s.cores[c].act.i {
        if Waiting(t, p, a.k) {
          BeginsToWait(s, c, e, t, p, a.k);
        }
      } else {
        JustVisited(s, c, t);
      }
    }
  }

  lemma JustVisited(s: State, c: Cpu, t: State)
    requires Inv(s) && ScanVisitStep(s, c, t) && |t.procs| == |s.procs|
    ensures s.cores[c].act.i < |s.procs| && !Waiting(t, s.cores[c].act.i, s.cores[c].act.k)
  {
    hide Inv;
    var p, k := s.cores[c].act.i, s.cores[c].act.k;
    forall d | 0 <= d < |t.cores| ensures t.cores[d] != Core(Some(p), SleepLocked(k)) {
      VisitedAwake(s, c, d, k);
    }
  }

  lemma {:induction false} RunPassed(run: seq<State>, who: seq<Cpu>, events: seq<Event>, n: nat, c: Cpu, p: Pid)
    requires IsRun(run, who, events) && n < |run| && c < |run[n].cores| && p < |run[n].procs|
    ensures Passed(run[n], c, p)
  {
    hide Step, Inv, Passed, Framed;
    if n == 0 {
      NoScan(run[0], c, p);
    } else {
      var m := n - 1;
      RunInv(run, who, events, m);
      StepFramed(run[m], who[m], events[m], run[n]);
      FramedSizes(run[m], who[m], run[n]);
      RunPassed(run, who, events, m, c, p);
      if who[m] == c {
        OwnPassed(run[m], c, events[m], run[n], p);
      } else {
        OtherPassed(run[m], who[m], events[m], run[n], c, p);
      }
    }
  }

  lemma NoScan(s: State, c: Cpu, p: Pid)
    requires Init(s) && c < |s.cores| && p < |s.procs|
    ensures Passed(s, c, p)
  {
    hide Waiting;
  }

  /** When wakeup returns, no process sleeps on its channel or is about to. */
  lemma WakeupWakesAll(run: seq<State>, who: seq<Cpu>, events: seq<Event>, n: nat, p: Pid)
    requires IsRun(run, who, events) && n < |events| && events[n].ScanDone? && p < |run[n].procs|
    ensures who[n] < |run[n].cores| && run[n].cores[who[n]].act.Scan?
    ensures !Waiting(run[n], p, run[n].cores[who[n]].act.k)
  {
    hide Waiting;
    assert Step(run[n], who[n], events[n], run[n + 1]);
    RunPassed(run, who, events, n, who[n], p);
  }

  // ---------------------------------------------------------------------
  // p->chan

  /** A channel is set exactly from going to sleep until the process runs again. */
  ghost predicate ChanOk(s: State, p: Pid)
    requires p < |s.procs|
  {
    var x := s.procs[p];
    && (x.chan.Some? ==> x.context == AfterSleep(x.chan.value) && !x.state.Unused? && !x.state.Zombie?)
    && (x.state.Sleeping? ==> x.chan.Some?)
    && forall c :: 0 <= c < |s.cores| && s.cores[c].proc == Some(p) && !s.cores[c].act.Resumed? && !s.cores[c].act.Leaving? ==> x.chan == None
  }

  lemma SchedulerChan(s: State, c: Cpu, e: Event, t: State, p: Pid)
    requires Inv(s) && SchedulerStep(s, c, e, t) && Framed(s, c, t) && p < |t.procs| && ChanOk(s, p)
    ensures ChanOk(t, p)
  {
    hide NoLostWakeup, LocksOk, GuardsOk, HoldsProc, HoldsLk;
    assert CoreOk(s, c);
  }

  lemma SleepChan(s: State, c: Cpu, e: Event, t: State, p: Pid)
    requires Inv(s) && SleepStep(s, c, e, t) && Framed(s, c, t) && p < |t.procs| && ChanOk(s, p)
    ensures ChanOk(t, p)
  {
    hide NoLostWakeup, LocksOk, GuardsOk, HoldsProc, HoldsLk;
    assert CoreOk(s, c);
  }

  lemma TableChan(s: State, c: Cpu, e: Event, t: State, p: Pid)
    requires Inv(s) && TableStep(s, c, e, t) && Framed(s, c, t) && p < |t.procs| && ChanOk(s, p)
    ensures ChanOk(t, p)
  {
    hide NoLostWakeup, LocksOk, GuardsOk, HoldsProc, HoldsLk;
    assert CoreOk(s, c);
  }

  lemma WakeChan(s: State, c: Cpu, e: Event, t: State, p: Pid)
    requires Inv(s) && WakeStep(s, c, e, t) && Framed(s, c, t) && p < |t.procs| && ChanOk(s, p)
    ensures ChanOk(t, p)
  {
    hide NoLostWakeup, LocksOk, GuardsOk, HoldsProc, HoldsLk;
    assert CoreOk(s, c);
  }

  lemma StepChan(s: State, c: Cpu, e: Event, t: State, p: Pid)
    requires Inv(s) && Step(s, c, e, t) && Framed(s, c, t) && p < |t.procs| == |s.procs| && ChanOk(s, p)
    ensures ChanOk(t, p)
  {
    hide Inv, Framed, ChanOk, SchedulerStep, SleepStep, TableStep, WakeStep;
    if SchedulerStep(s, c, e, t) {
      SchedulerChan(s, c, e, t, p);
    } else if SleepStep(s, c, e, t) {
      SleepChan(s, c, e, t, p);
    } else if TableStep(s, c, e, t) {
      TableChan(s, c, e, t, p);
    } else {
      WakeChan(s, c, e, t, p);
    }
  }

  /** In every reachable state. */
  lemma {:induction false} ChannelsExact(run: seq<State>, who: seq<Cpu>, events: seq<Event>, n: nat, p: Pid)
    requires IsRun(run, who, events) && n < |run| && p < |run[n].procs|
    ensures ChanOk(run[n], p)
  {
    hide Step, Inv, Framed, ChanOk;
    if n == 0 {
      NoChannels(run[0], p);
    } else {
      var m := n - 1;
      RunInv(run, who, events, m);
      StepFramed(run[m], who[m], events[m], run[n]);
      FramedSizes(run[m], who[m], run[n]);
      ChannelsExact(run, who, events, m, p);
      StepChan(run[m], who[m], events[m], run[n], p);
    }
  }

  lemma NoChannels(s: State, p: Pid)
    requires Init(s) && p < |s.procs|
    ensures ChanOk(s, p)
  {
  }
}
