/** What the processes of ExitWait may count on: which step changes what in the process
    table, what wait answers, and that neither wait nor kill misses the other. */
module WaitOutcome {
  import opened ProcTable
  import opened ExitWait

  // ---------------------------------------------------------------------
  // Which changes of a process there are

  /** What the thread of a process does to its own slot; the parent is never its business. */
  predicate OwnChange(p: Pid, e: Event, a: Proc, b: Proc) {
    && b.parent == a.parent
    && (b.killed == a.killed || (e.KillDone? && a.pc == Kill(p) && b.killed))
    && (|| (b.state == a.state && b.inWait == a.inWait)
        || (e.Dispatch? && a.state.Runnable? && b.state.Running? && b.inWait == a.inWait)
        || (e.Continue? && a.state.Running? && b.state.Running? && !b.inWait)
        || (e.YieldNow? && a.state.Running? && b.state.Runnable? && b.inWait == a.inWait)
        || (e.SleepNow? && a.state.Running? && b.state.Sleeping? && !b.inWait)
        || (e.WaitSleep? && a.state.Running? && b.state.Sleeping? && b.inWait && !a.killed)
        || (e.ExitSetZombie? && a.state.Running? && b.state.Zombie? && !b.inWait))
  }

  lemma SchedOwn(s: State, p: Pid, e: Event, t: State)
    requires Inv(s) && p < |s.procs| && SchedStep(s, p, e, t)
    ensures |t.procs| == |s.procs| && OwnChange(p, e, s.procs[p], t.procs[p])
  {
    hide LocksOk, RefsOk, OrigOk, ParentOk, ZombieSeen, WokenOk;
    assert SlotOk(s, p);
  }

  lemma KillOwn(s: State, p: Pid, e: Event, t: State)
    requires Inv(s) && p < |s.procs| && (KillStep(s, p, e, t) || ForkStep(s, p, e, t))
    ensures |t.procs| == |s.procs| && OwnChange(p, e, s.procs[p], t.procs[p])
  {
    hide LocksOk, OrigOk, ParentOk, ZombieSeen, WokenOk;
    assert SlotOk(s, p);
  }

  lemma WaitOwn(s: State, p: Pid, e: Event, t: State)
    requires Inv(s) && p < |s.procs| && (WaitStep(s, p, e, t) || ReturnStep(s, p, e, t))
    ensures |t.procs| == |s.procs| && OwnChange(p, e, s.procs[p], t.procs[p])
  {
    hide LocksOk, OrigOk, ParentOk, ZombieSeen, WokenOk;
    assert SlotOk(s, p);
  }

  lemma ExitOwn(s: State, p: Pid, e: Event, t: State)
    requires Inv(s) && p < |s.procs| && (ExitStep(s, p, e, t) || OrigStep(s, p, e, t))
    ensures |t.procs| == |s.procs| && OwnChange(p, e, s.procs[p], t.procs[p])
  {
    hide LocksOk, OrigOk, ParentOk, ZombieSeen, WokenOk;
    assert SlotOk(s, p);
  }

  lemma LastOwn(s: State, p: Pid, e: Event, t: State)
    requires Inv(s) && p < |s.procs| && (ReparentStep(s, p, e, t) || LastStep(s, p, e, t))
    ensures |t.procs| == |s.procs| && OwnChange(p, e, s.procs[p], t.procs[p])
  {
    hide LocksOk, OrigOk, ParentOk, ZombieSeen, WokenOk;
    assert SlotOk(s, p);
  }

  lemma StepOwn(s: State, p: Pid, e: Event, t: State)
    requires Inv(s) && Step(s, p, e, t)
    ensures p < |s.procs| == |t.procs| && OwnChange(p, e, s.procs[p], t.procs[p])
  {
    hide Inv, OwnChange, SchedStep, KillStep, ForkStep, WaitStep, ReturnStep, ExitStep, OrigStep, ReparentStep, LastStep;
    if SchedStep(s, p, e, t) {
      SchedOwn(s, p, e, t);
    } else if KillStep(s, p, e, t) || ForkStep(s, p, e, t) {
      KillOwn(s, p, e, t);
    } else if WaitStep(s, p, e, t) || ReturnStep(s, p, e, t) {
      WaitOwn(s, p, e, t);
    } else if ExitStep(s, p, e, t) || OrigStep(s, p, e, t) {
      ExitOwn(s, p, e, t);
    } else {
      LastOwn(s, p, e, t);
    }
  }

  /** What thread p does to the slot of another process: kill marks and wakes it, exit wakes
      init or the parent from wait, fork makes it, reparent gives it to init, wait frees it. */
  predicate OtherChange(s: State, p: Pid, j: Pid, a: Proc, b: Proc)
    requires p < |s.procs|
  {
    || (b.state == a.state && b.parent == a.parent && b.inWait == a.inWait && b.killed == a.killed)
    || (s.procs[p].pc == Kill(j) && b.killed && !b.state.Sleeping? && (a.state.Sleeping? ==> b.state.Runnable?)
        && (!a.state.Sleeping? ==> b.state == a.state) && b.parent == a.parent && b.inWait == a.inWait)
    || (WakesWaiter(s, p, j) && a.state.Sleeping? && a.inWait
        && b.state.Runnable? && b.parent == a.parent && b.inWait && b.killed == a.killed)
    || (s.procs[p].pc == ForkLocked(j) && a.state.Unused? && a.parent == None
        && b.state.Unused? && b.parent == Some(p) && b.inWait == a.inWait && b.killed == a.killed)
    || (s.procs[p].pc == ForkParent(j) && a.state.Unused? && a.parent == Some(p)
        && b.state.Runnable? && b.parent == a.parent && b.inWait == a.inWait && b.killed == a.killed)
    || (s.procs[p].pc.ReparentChild? && s.procs[p].pc.i == j && a.parent == Some(p)
        && b.state == a.state && b.parent == Some(s.init) && b.inWait == a.inWait && b.killed == a.killed)
    || (s.procs[p].pc.WaitChild? && s.procs[p].pc.i == j && a.parent == Some(p) && a.state.Zombie?
        && b.state.Unused? && b.parent == None && !b.inWait && !b.killed)
  }

  lemma StepOther(s: State, p: Pid, e: Event, t: State, j: Pid)
    requires Inv(s) && Step(s, p, e, t) && j < |s.procs| && j != p
    ensures p < |s.procs| == |t.procs| && OtherChange(s, p, j, s.procs[j], t.procs[j])
  {
    hide Step, LocksOk, StateOk, OrigOk, ParentOk, ZombieSeen, WokenOk, WakesWaiter;
    StepFramed(s, p, e, t);
    assert Effect(s, p, t, j);
    assert SlotOk(s, p);
  }

  lemma {:induction false} RunSizes(run: seq<State>, who: seq<Pid>, events: seq<Event>, n: nat)
    requires IsRun(run, who, events) && n < |run|
    ensures |run[n].procs| == |run[0].procs|
  {
    hide Step, Inv, OwnChange;
    if n > 0 {
      RunSizes(run, who, events, n - 1);
      RunInv(run, who, events, n - 1);
      StepOwn(run[n - 1], who[n - 1], events[n - 1], run[n]);
    }
  }

  /** In every step of every run each process changes in these ways only. */
  lemma RunChanges(run: seq<State>, who: seq<Pid>, events: seq<Event>, n: nat, j: Pid)
    requires IsRun(run, who, events) && n < |events| && j < |run[0].procs|
    ensures who[n] < |run[n].procs| == |run[n + 1].procs| == |run[0].procs|
    ensures if j == who[n] then OwnChange(j, events[n], run[n].procs[j], run[n + 1].procs[j])
            else OtherChange(run[n], who[n], j, run[n].procs[j], run[n + 1].procs[j])
  {
    hide Step, Inv, OwnChange, OtherChange;
    RunInv(run, who, events, n);
    RunSizes(run, who, events, n);
    StepOwn(run[n], who[n], events[n], run[n + 1]);
    if j != who[n] {
      StepOther(run[n], who[n], events[n], run[n + 1], j);
    }
  }

  /** Thread p is about to kill j, or to wake it from wait. */
  predicate MayRouse(s: State, p: Pid, j: Pid)
    requires p < |s.procs| && j < |s.procs|
  {
    s.procs[p].pc == Kill(j) || (WakesWaiter(s, p, j) && s.procs[j].inWait)
  }

  /** Until then a process asleep sleeps on. */
  lemma {:induction false} SleepsOn(run: seq<State>, who: seq<Pid>, events: seq<Event>, i: nat, k: nat, j: Pid)
    requires IsRun(run, who, events) && i <= k < |run| && j < |run[i].procs| == |run[0].procs| && run[i].procs[j].state.Sleeping?
    requires forall n :: i <= n < k ==> who[n] < |run[n].procs| && j < |run[n].procs| && !MayRouse(run[n], who[n], j)
    ensures |run[k].procs| == |run[0].procs|
    ensures run[k].procs[j].state.Sleeping? && run[k].procs[j].inWait == run[i].procs[j].inWait
    decreases k
  {
    hide Step, WakesWaiter;
    if i < k {
      SleepsOn(run, who, events, i, k - 1, j);
      RunChanges(run, who, events, k - 1, j);
    }
  }

  // ---------------------------------------------------------------------
  // The processes are a tree below init

  ghost predicate HasChild(s: State, p: Pid) {
    exists j :: 0 <= j < |s.procs| && s.procs[j].parent == Some(p)
  }

  /** A parent other than init ranks below its child. */
  predicate SlotRanked(s: State, rank: seq<nat>, j: Pid)
    requires j < |s.procs| == |rank|
  {
    s.procs[j].parent.Some? && s.procs[j].parent.value < |rank| && s.procs[j].parent.value != s.init ==>
      rank[s.procs[j].parent.value] < rank[j]
  }

  ghost predicate RankedBy(s: State, rank: seq<nat>) {
    |rank| == |s.procs| && forall j :: 0 <= j < |s.procs| ==> SlotRanked(s, rank, j)
  }

  ghost predicate Ranked(s: State) {
    exists rank :: RankedBy(s, rank)
  }

  /** A slot without a process has no children. */
  lemma UnusedChildless(s: State, q: Pid, j: Pid)
    requires Inv(s) && q < |s.procs| && j < |s.procs| && s.procs[q].state.Unused?
    ensures s.procs[j].parent != Some(q)
  {
    hide LocksOk, StateOk, RefsOk, OrigOk, ZombieSeen, WokenOk;
    assert SlotOk(s, q) && SlotOk(s, j);
  }

  /** Slot j in a step of p that is not the making of a process. */
  lemma OldRanked(s: State, p: Pid, e: Event, t: State, rank: seq<nat>, j: Pid)
    requires Inv(s) && Step(s, p, e, t) && p < |s.procs| && |s.procs| == |t.procs| == |rank| && j < |s.procs| && t.init == s.init
    requires RankedBy(s, rank) && s.procs[p].pc != ForkLocked(j)
    ensures t.procs[j].parent == s.procs[j].parent || t.procs[j].parent == None || t.procs[j].parent == Some(s.init)
  {
    hide Step, Inv, WakesWaiter, RankedBy;
    if j == p {
      StepOwn(s, p, e, t);
    } else {
      StepOther(s, p, e, t, j);
    }
  }

  lemma NewRanked(s: State, p: Pid, e: Event, t: State, j: Pid)
    requires Inv(s) && Step(s, p, e, t) && p < |s.procs| == |t.procs| && j < |s.procs| && s.procs[p].pc == ForkLocked(j)
    ensures t.procs[j].parent == None || t.procs[j].parent == Some(p)
  {
    hide Step, Inv, WakesWaiter;
    ForkTarget(s, p);
    StepOther(s, p, e, t, j);
  }

  lemma ForkTarget(s: State, p: Pid)
    requires Inv(s) && p < |s.procs| && s.procs[p].pc.ForkLocked?
    ensures s.procs[p].pc.np < |s.procs| && s.procs[p].pc.np != p
    ensures s.procs[s.procs[p].pc.np].state.Unused? && s.procs[s.procs[p].pc.np].parent == None
  {
    hide LocksOk, StateOk, OrigOk, ParentOk, ZombieSeen, WokenOk;
    assert SlotOk(s, p);
  }

  /** The ranks after a step of p: a process that is being made ranks above its parent. */
  function Reranked(s: State, p: Pid, rank: seq<nat>): (r: seq<nat>)
    requires p < |s.procs| == |rank|
    ensures |r| == |rank|
  {
    if s.procs[p].pc.ForkLocked? && s.procs[p].pc.np < |rank| then rank[s.procs[p].pc.np := rank[p] + 1] else rank
  }

  lemma StepSlotRanked(s: State, p: Pid, e: Event, t: State, rank: seq<nat>, j: Pid)
    requires Inv(s) && Step(s, p, e, t) && p < |s.procs| && |s.procs| == |t.procs| == |rank| && j < |s.procs| && t.init == s.init
    requires RankedBy(s, rank)
    ensures SlotRanked(t, Reranked(s, p, rank), j)
  {
    hide Step, Inv;
    assert SlotRanked(s, rank, j);
    if s.procs[p].pc.ForkLocked? {
      ForkTarget(s, p);
      UnusedChildless(s, s.procs[p].pc.np, j);
    }
    if s.procs[p].pc == ForkLocked(j) {
      NewRanked(s, p, e, t, j);
    } else {
      OldRanked(s, p, e, t, rank, j);
    }
  }

  lemma StepRanked(s: State, p: Pid, e: Event, t: State)
    requires Inv(s) && Step(s, p, e, t) && Ranked(s)
    ensures Ranked(t)
  {
    hide Step, Inv, OwnChange, Framed, SlotRanked, Reranked;
    StepOwn(s, p, e, t);
    StepFramed(s, p, e, t);
    InFrame(s, p, t);
    var rank :| RankedBy(s, rank);
    forall j | 0 <= j < |t.procs| ensures SlotRanked(t, Reranked(s, p, rank), j) {
      StepSlotRanked(s, p, e, t, rank, j);
    }
    assert RankedBy(t, Reranked(s, p, rank));
  }

  lemma {:induction false} RunRanked(run: seq<State>, who: seq<Pid>, events: seq<Event>, n: nat)
    requires IsRun(run, who, events) && n < |run|
    ensures Ranked(run[n])
  {
    hide Step, Inv, Ranked;
    if n == 0 {
      FirstRanked(run[0]);
    } else {
      RunRanked(run, who, events, n - 1);
      RunInv(run, who, events, n - 1);
      StepRanked(run[n - 1], who[n - 1], events[n - 1], run[n]);
    }
  }

  lemma FirstRanked(s: State)
    requires Init(s)
    ensures Ranked(s)
  {
    var rank: seq<nat> := seq(|s.procs|, _ => 0);
    assert RankedBy(s, rank);
  }

  /** A parent other than init has a parent itself. */
  lemma ParentHasParent(s: State, j: Pid)
    requires Inv(s) && j < |s.procs| && s.procs[j].parent.Some?
    ensures s.procs[j].parent.value < |s.procs|
    ensures s.procs[j].parent.value != s.init ==> s.procs[s.procs[j].parent.value].parent.Some?
  {
    hide LocksOk, StateOk, RefsOk, OrigOk, ZombieSeen, WokenOk;
    assert SlotOk(s, j);
    assert SlotOk(s, s.procs[j].parent.value);
  }

  lemma {:induction false} RootAbove(s: State, rank: seq<nat>, j: Pid)
    requires Inv(s) && RankedBy(s, rank) && j < |s.procs| == |rank| && s.procs[j].parent.Some?
    ensures HasChild(s, s.init)
    decreases rank[j]
  {
    hide Inv;
    ParentHasParent(s, j);
    assert SlotRanked(s, rank, j);
    if s.procs[j].parent.value != s.init {
      RootAbove(s, rank, s.procs[j].parent.value);
    }
  }

  /** While there is a process with a parent, init has a child. */
  lemma InitHasChild(s: State, j: Pid)
    requires Inv(s) && Ranked(s) && j < |s.procs| && s.procs[j].parent.Some?
    ensures HasChild(s, s.init)
  {
    hide Inv, HasChild, SlotRanked;
    var rank :| RankedBy(s, rank);
    RootAbove(s, rank, j);
  }

  // ---------------------------------------------------------------------
  // Children seen by wait

  ghost predicate NoChildBelow(s: State, p: Pid, i: nat) {
    forall j :: 0 <= j < |s.procs| && j < i ==> s.procs[j].parent != Some(p)
  }

  ghost predicate Orphaned(s: State) {
    forall j :: 0 <= j < |s.procs| ==> s.procs[j].parent == None
  }

  ghost predicate ChildFrom(s: State, p: Pid, i: nat) {
    exists j :: i <= j < |s.procs| && s.procs[j].parent == Some(p)
  }

  /** What havekids == 0 means so far: there is no child in the slots behind. init may get
      children there while it scans, but then it has a child in the slots ahead. */
  ghost predicate NoneSeen(s: State, p: Pid, i: nat) {
    if p == s.init then Orphaned(s) || ChildFrom(s, p, i) else NoChildBelow(s, p, i)
  }

  /** havekids is right; and who sleeps in wait has a child and has not been killed. */
  ghost predicate KidsOk(s: State, p: Pid)
    requires p < |s.procs|
  {
    && (s.procs[p].inWait && s.procs[p].state.Sleeping? ==> !s.procs[p].killed)
    && match s.procs[p].pc
       case WaitScan(i, kids) => if kids then HasChild(s, p) else NoneSeen(s, p, i)
       case WaitChild(i, kids) => kids
       case Off(why) => why.SleptInWait? ==> HasChild(s, p)
       case Back(why) => why.SleptInWait? ==> HasChild(s, p)
       case _ => true
  }

  lemma ChildStays(s: State, p: Pid, e: Event, t: State, q: Pid, i: nat)
    requires Inv(s) && Step(s, p, e, t) && q != p && ChildFrom(s, q, i)
    ensures ChildFrom(t, q, i)
  {
    hide Step, Inv, WakesWaiter;
    var j :| i <= j < |s.procs| && s.procs[j].parent == Some(q);
    StepOwn(s, p, e, t);
    if j != p {
      StepOther(s, p, e, t, j);
    }
    assert t.procs[j].parent == Some(q);
  }

  lemma NoneBelowStays(s: State, p: Pid, e: Event, t: State, q: Pid, i: nat)
    requires Inv(s) && Step(s, p, e, t) && q != p && q != s.init && NoChildBelow(s, q, i)
    ensures NoChildBelow(t, q, i)
  {
    hide Step, Inv, WakesWaiter;
    StepOwn(s, p, e, t);
    forall j | 0 <= j < |t.procs| && j < i ensures t.procs[j].parent != Some(q) {
      if j != p {
        StepOther(s, p, e, t, j);
      }
    }
  }

  /** Another thread's place in the code changes only when fork or wait makes or frees it. */
  lemma OtherPlace(s: State, p: Pid, e: Event, t: State, q: Pid)
    requires Inv(s) && Step(s, p, e, t) && q < |s.procs| && q != p
    ensures q < |t.procs| && t.init == s.init
    ensures t.procs[q].pc == s.procs[q].pc || t.procs[q].pc == Off(Fresh) || t.procs[q].pc == NoThread
  {
    hide Step, Inv, Framed;
    StepFramed(s, p, e, t);
    InFrame(s, p, t);
    OtherPc(s, p, t, q);
  }

  lemma InFrame(s: State, p: Pid, t: State)
    requires Framed(s, p, t)
    ensures p < |s.procs| == |t.procs| && s.init == t.init
  {
  }

  lemma OtherKids(s: State, p: Pid, e: Event, t: State, q: Pid)
    requires Inv(s) && Step(s, p, e, t) && q < |s.procs| && q != p && KidsOk(s, q)
    ensures q < |t.procs| && KidsOk(t, q)
  {
    hide Step, Inv, HasChild, NoneSeen, WakesWaiter;
    OtherPlace(s, p, e, t, q);
    StepOther(s, p, e, t, q);
    if HasChild(s, q) {
      AnyChild(s, q);
      ChildStays(s, p, e, t, q, 0);
      AnyChild(t, q);
    }
    if s.procs[q].pc.WaitScan? && NoneSeen(s, q, s.procs[q].pc.i) {
      NoneSeenStays(s, p, e, t, q, s.procs[q].pc.i);
    }
  }

  lemma AnyChild(s: State, p: Pid)
    ensures HasChild(s, p) <==> ChildFrom(s, p, 0)
  {
  }

  lemma NoneSeenStays(s: State, p: Pid, e: Event, t: State, q: Pid, i: nat)
    requires Inv(s) && Step(s, p, e, t) && q != p && NoneSeen(s, q, i) && t.init == s.init
    ensures NoneSeen(t, q, i)
  {
    hide Step, Inv, NoChildBelow, ChildFrom, Orphaned;
    if q != s.init {
      NoneBelowStays(s, p, e, t, q, i);
    } else {
      if Orphaned(s) {
        NobodyElse(s, p, e, t);
      }
      ChildStays(s, p, e, t, q, i);
    }
  }

  /** If no process has a parent, init is alone and only it takes steps. */
  lemma NobodyElse(s: State, p: Pid, e: Event, t: State)
    requires Inv(s) && Step(s, p, e, t) && p != s.init
    ensures !Orphaned(s)
  {
    hide Step, LocksOk, StateOk, RefsOk, OrigOk, ZombieSeen, WokenOk;
    StepInTable(s, p, e, t);
    assert SlotOk(s, p);
    NotIdle(s, p, e, t);
  }

  lemma NotIdle(s: State, p: Pid, e: Event, t: State)
    requires Step(s, p, e, t)
    ensures p < |s.procs| && !s.procs[p].pc.NoThread?
  {
  }

  predicate AwayFromWait(pc: Pc) {
    !pc.WaitScan? && !pc.WaitChild? && !pc.Back? && (pc.Off? ==> pc.why.Died?)
  }

  /** Steps outside wait do not lead into its scan. */
  lemma OutsideWait(s: State, p: Pid, e: Event, t: State)
    requires p < |s.procs| == |t.procs| && (KillStep(s, p, e, t) || ForkStep(s, p, e, t) || ExitStep(s, p, e, t) || OrigStep(s, p, e, t))
    ensures AwayFromWait(t.procs[p].pc)
  {
  }

  lemma OutsideWaitToo(s: State, p: Pid, e: Event, t: State)
    requires p < |s.procs| == |t.procs| && (ReparentStep(s, p, e, t) || LastStep(s, p, e, t))
    ensures AwayFromWait(t.procs[p].pc)
  {
  }

  lemma SchedKids(s: State, p: Pid, e: Event, t: State)
    requires Inv(s) && Ranked(s) && p < |s.procs| == |t.procs| && SchedStep(s, p, e, t) && KidsOk(s, p)
    ensures KidsOk(t, p)
  {
    BeginScan(s, p);
    hide LocksOk, RefsOk, OrigOk, ParentOk, ZombieSeen, WokenOk, Ranked, NoneSeen, HasChild;
    assert SlotOk(s, p);
    SameParents(s, t, p, 0);
  }

  lemma SameParents(s: State, t: State, p: Pid, i: nat)
    requires |t.procs| == |s.procs| && t.init == s.init && forall j :: 0 <= j < |s.procs| ==> t.procs[j].parent == s.procs[j].parent
    ensures (HasChild(s, p) ==> HasChild(t, p)) && (NoneSeen(s, p, i) ==> NoneSeen(t, p, i))
  {
    if HasChild(s, p) {
      var j :| 0 <= j < |s.procs| && s.procs[j].parent == Some(p);
      assert t.procs[j].parent == Some(p);
    }
    if ChildFrom(s, p, i) {
      var j :| i <= j < |s.procs| && s.procs[j].parent == Some(p);
      assert t.procs[j].parent == Some(p);
    }
  }

  /** At the first slot nothing has been seen. */
  lemma BeginScan(s: State, p: Pid)
    requires Inv(s) && Ranked(s) && p < |s.procs|
    ensures NoneSeen(s, p, 0)
  {
    hide Inv, Ranked, HasChild;
    if p == s.init && !Orphaned(s) {
      var j :| 0 <= j < |s.procs| && s.procs[j].parent != None;
      InitHasChild(s, j);
      AnyChild(s, p);
    }
  }

  lemma NextSlot(s: State, p: Pid, i: nat)
    requires NoneSeen(s, p, i) && i < |s.procs| && s.procs[i].parent != Some(p)
    ensures NoneSeen(s, p, i + 1)
  {
    if p == s.init && !Orphaned(s) {
      var j :| i <= j < |s.procs| && s.procs[j].parent == Some(p);
      assert i + 1 <= j;
    }
  }

  lemma WaitKids(s: State, p: Pid, e: Event, t: State)
    requires Inv(s) && Ranked(s) && p < |s.procs| == |t.procs| && WaitStep(s, p, e, t) && KidsOk(s, p)
    ensures KidsOk(t, p)
  {
    BeginScan(s, p);
    hide LocksOk, OrigOk, ParentOk, ZombieSeen, WokenOk, Ranked, NoneSeen;
    assert SlotOk(s, p);
    assert forall j :: 0 <= j < |s.procs| ==> t.procs[j].parent == s.procs[j].parent;
    var pc := s.procs[p].pc;
    if e.WaitSkip? && !pc.kids {
      NextSlot(s, p, pc.i);
    }
    SameParents(s, t, p, if e.WaitSkip? then pc.i + 1 else 0);
  }

  lemma ReturnKids(s: State, p: Pid, e: Event, t: State)
    requires Inv(s) && p < |s.procs| == |t.procs| && ReturnStep(s, p, e, t) && KidsOk(s, p)
    ensures KidsOk(t, p)
  {
    hide LocksOk, OrigOk, ParentOk, ZombieSeen, WokenOk, NoneSeen;
    assert SlotOk(s, p);
    assert e.WaitSleep? ==> forall j :: 0 <= j < |s.procs| ==> t.procs[j].parent == s.procs[j].parent;
  }

  lemma OwnKids(s: State, p: Pid, e: Event, t: State)
    requires Inv(s) && Ranked(s) && Step(s, p, e, t) && p < |s.procs| && KidsOk(s, p)
    ensures p < |t.procs| && KidsOk(t, p)
  {
    hide Inv, Ranked, SchedStep, KillStep, ForkStep, WaitStep, ReturnStep, ExitStep, OrigStep, ReparentStep, LastStep, HasChild, NoneSeen;
    StepOwn(s, p, e, t);
    if SchedStep(s, p, e, t) {
      SchedKids(s, p, e, t);
    } else if WaitStep(s, p, e, t) {
      WaitKids(s, p, e, t);
    } else if ReturnStep(s, p, e, t) {
      ReturnKids(s, p, e, t);
    } else {
      if ReparentStep(s, p, e, t) || LastStep(s, p, e, t) {
        OutsideWaitToo(s, p, e, t);
      } else {
        OutsideWait(s, p, e, t);
      }
      StepInv(s, p, e, t);
      AwayIsAwake(t, p);
    }
  }

  lemma AwayIsAwake(s: State, p: Pid)
    requires Inv(s) && p < |s.procs| && AwayFromWait(s.procs[p].pc)
    ensures !s.procs[p].state.Sleeping?
  {
    hide LocksOk, RefsOk, OrigOk, ParentOk, ZombieSeen, WokenOk;
    assert SlotOk(s, p);
  }

  lemma {:induction false} RunKids(run: seq<State>, who: seq<Pid>, events: seq<Event>, n: nat, p: Pid)
    requires IsRun(run, who, events) && n < |run| && p < |run[n].procs|
    ensures KidsOk(run[n], p)
  {
    hide Step, Inv, KidsOk, OwnChange, Ranked;
    if n == 0 {
      NoneWaits(run[0], p);
    } else {
      var m := n - 1;
      RunInv(run, who, events, m);
      RunRanked(run, who, events, m);
      StepOwn(run[m], who[m], events[m], run[n]);
      RunKids(run, who, events, m, p);
      if who[m] == p {
        OwnKids(run[m], p, events[m], run[n]);
      } else {
        OtherKids(run[m], who[m], events[m], run[n], p);
      }
    }
  }

  lemma NoneWaits(s: State, p: Pid)
    requires Init(s) && p < |s.procs|
    ensures KidsOk(s, p)
  {
  }

  // ---------------------------------------------------------------------
  // The outcomes of wait

  /** wait gives up only if the process was killed or has no child, init included, although
      dying processes give init children while it scans. */
  lemma WaitFails(run: seq<State>, who: seq<Pid>, events: seq<Event>, n: nat)
    requires IsRun(run, who, events) && n < |events| && events[n].WaitReturn?
    ensures var s, p := run[n], who[n];
            p < |s.procs| && (s.procs[p].killed || forall j :: 0 <= j < |s.procs| ==> s.procs[j].parent != Some(p))
  {
    assert Step(run[n], who[n], events[n], run[n + 1]);
    RunKids(run, who, events, n, who[n]);
  }

  /** In every reachable state a process asleep in wait has a child, that is no zombie unless
      the process is init, and it has not been killed. */
  lemma WaiterHasChild(run: seq<State>, who: seq<Pid>, events: seq<Event>, n: nat, p: Pid)
    requires IsRun(run, who, events) && n < |run| && p < |run[n].procs|
    requires run[n].procs[p].inWait && run[n].procs[p].state.Sleeping?
    ensures !run[n].procs[p].killed && HasChild(run[n], p)
    ensures p != run[n].init ==> forall j :: 0 <= j < |run[n].procs| && run[n].procs[j].parent == Some(p) ==> !run[n].procs[j].state.Zombie?
  {
    RunInv(run, who, events, n);
    RunKids(run, who, events, n, p);
    hide HasChild, LocksOk, RefsOk, OrigOk, WokenOk;
    var s := run[n];
    assert SlotOk(s, p);
    forall j | 0 <= j < |s.procs| && s.procs[j].parent == Some(p) && p != s.init ensures !s.procs[j].state.Zombie? {
      assert SlotOk(s, j);
    }
  }
}
