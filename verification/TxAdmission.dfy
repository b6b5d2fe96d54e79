/** Log space (begin_op, end_op, log_write in kernel/log.c): the admission test of
    begin_op keeps enough room for every operation's budget of MAXOPBLOCKS blocks, so
    the panic of end_op is out of reach, and so is the panic of log_write for a block that
    is new to the header, provided the disk has more log blocks than LOGSIZE. With fewer,
    such a log_write can panic. A log_write of a block that is already in the header panics
    whenever the header is full, because the test comes before the search. */
module TxAdmission {
  import opened Common
  import opened RedoLog
  import opened TxSystem

  /** Blocks that operations inside begin_op/end_op may still add to the header. */
  ghost function Unspent(c: Params, ops: map<Proc, nat>): int
    decreases |ops|
  {
    if ops == map[] then 0
    else
      var p :| p in ops;
      assert |(ops - {p}).Keys| < |ops.Keys|;
      c.maxop - ops[p] + Unspent(c, ops - {p})
  }

  lemma {:induction false} UnspentWithout(c: Params, ops: map<Proc, nat>, p: Proc)
    requires p in ops
    ensures Unspent(c, ops) == c.maxop - ops[p] + Unspent(c, ops - {p})
    decreases |ops|
  {
    var q :| q in ops && Unspent(c, ops) == c.maxop - ops[q] + Unspent(c, ops - {q});
    if q != p {
      assert |(ops - {q}).Keys| < |ops.Keys| && |(ops - {p}).Keys| < |ops.Keys|;
      UnspentWithout(c, ops - {q}, p);
      UnspentWithout(c, ops - {p}, q);
      assert ops - {q} - {p} == ops - {p} - {q};
    }
  }

  lemma UnspentSet(c: Params, ops: map<Proc, nat>, p: Proc, n: nat)
    ensures Unspent(c, ops[p := n]) == c.maxop - n + Unspent(c, ops - {p})
  {
    UnspentWithout(c, ops[p := n], p);
    assert ops[p := n] - {p} == ops - {p};
  }

  ghost predicate InBudget(c: Params, ops: map<Proc, nat>) {
    forall p :: p in ops ==> ops[p] <= c.maxop
  }

  lemma {:induction false} UnspentBounds(c: Params, ops: map<Proc, nat>)
    requires InBudget(c, ops)
    ensures 0 <= Unspent(c, ops) <= |ops| * c.maxop
    decreases |ops|
  {
    if ops != map[] {
      var p :| p in ops;
      UnspentWithout(c, ops, p);
      assert |(ops - {p}).Keys| == |ops.Keys| - 1;
      UnspentBounds(c, ops - {p});
      OneMore(|ops| - 1, c.maxop);
    }
  }

  lemma OneMore(n: int, k: nat)
    ensures (n + 1) * k == n * k + k
  {
  }

  /** Blocks in the header plus unspent budgets fit in the log. */
  ghost predicate Admitted(c: Params, s: State) {
    && InBudget(c, s.ops)
    && |s.lh| + Unspent(c, s.ops) <= c.g.logsize
  }

  lemma QuietStep(c: Params, s: State, e: Event, t: State)
    requires Step(c, s, e, t) && !e.BeginOp? && !e.EndOp? && !e.LogWrite? && !e.Crash?
    ensures t.ops == s.ops && |t.lh| <= |s.lh|
  {
  }

  lemma AdmittedBegin(c: Params, s: State, p: Proc, t: State)
    requires Admitted(c, s) && s.outstanding == |s.ops| && BeginOpStep(c, s, p, t)
    ensures Admitted(c, t)
  {
    hide Unspent;
    UnspentBounds(c, s.ops);
    UnspentSet(c, s.ops, p, 0);
    assert s.ops - {p} == s.ops;
    OneMore(s.outstanding, c.maxop);
  }

  lemma AdmittedEnd(c: Params, s: State, p: Proc, t: State)
    requires Admitted(c, s) && EndOpStep(s, p, t)
    ensures Admitted(c, t)
  {
    UnspentWithout(c, s.ops, p);
  }

  lemma AdmittedLogWrite(c: Params, s: State, p: Proc, b: int, t: State)
    requires Admitted(c, s) && LogWriteStep(c, s, p, b, t)
    ensures Admitted(c, t)
  {
    if b !in s.lh {
      UnspentWithout(c, s.ops, p);
      UnspentSet(c, s.ops, p, s.ops[p] + 1);
    }
  }

  lemma NothingOwed(c: Params, s: State, t: State)
    requires CrashStep(c, s, t)
    ensures Admitted(c, t)
  {
  }

  lemma QuietAdmitted(c: Params, s: State, e: Event, t: State)
    requires Admitted(c, s) && Step(c, s, e, t) && !e.BeginOp? && !e.EndOp? && !e.LogWrite? && !e.Crash?
    ensures Admitted(c, t)
  {
    QuietStep(c, s, e, t);
  }

  lemma AdmittedStep(c: Params, s: State, e: Event, t: State)
    requires s.outstanding == |s.ops| && Admitted(c, s) && Step(c, s, e, t)
    ensures Admitted(c, t)
  {
    hide Admitted;
    match e
    case BeginOp(p) => AdmittedBegin(c, s, p, t);
    case EndOp(p) => AdmittedEnd(c, s, p, t);
    case LogWrite(p, b) => AdmittedLogWrite(c, s, p, b, t);
    case Crash => NothingOwed(c, s, t);
    case _ => QuietAdmitted(c, s, e, t);
  }

  lemma {:induction false} RunAdmitted(c: Params, run: seq<State>, events: seq<Event>, n: nat)
    requires IsRun(c, run, events) && n < |run|
    ensures Inv(c, run[n]) && Admitted(c, run[n])
  {
    RunInv(c, run, events, n);
    if n > 0 {
      var k := n - 1;
      RunAdmitted(c, run, events, k);
      AdmittedStep(c, run[k], events[k], run[k + 1]);
    }
  }

  ghost predicate Reachable(c: Params, s: State) {
    exists run, events :: IsRun(c, run, events) && run[|events|] == s
  }

  /** Whenever a process is inside an operation no commit is under way, so end_op
      does not panic; and an idle log is empty and admits an operation at once. */
  lemma EndOpAndBeginOpSafe(c: Params, s: State)
    requires Reachable(c, s)
    ensures forall p :: p in s.ops ==> s.phase.Running? && s.outstanding >= 1
    ensures s.phase.Running? && s.outstanding == 0 ==> s.lh == []
    ensures s.phase.Running? && s.outstanding == 0 && c.maxop <= c.g.logsize ==>
              |s.lh| + (s.outstanding + 1) * c.maxop <= c.g.logsize
  {
    hide Step, BufOk, EntryOk, HeadOk, Head;
    var run, events :| IsRun(c, run, events) && run[|events|] == s;
    RunInv(c, run, events, |events|);
    if s.ops != map[] {
      assert |s.ops.Keys| > 0;
    }
  }

  /** begin_op goes on exactly when no commit is under way and the header has room for a full
      budget of every active operation and of this one. */
  lemma BeginOpExactly(c: Params, s: State, p: Proc)
    requires Reachable(c, s) && p !in s.ops
    ensures (exists t :: Step(c, s, BeginOp(p), t)) <==>
            s.phase.Running? && |s.lh| + |s.ops| * c.maxop + c.maxop <= c.g.logsize
  {
    hide BufOk, EntryOk, HeadOk, Head;
    var run, events :| IsRun(c, run, events) && run[|events|] == s;
    RunInv(c, run, events, |events|);
    assert (s.outstanding + 1) * c.maxop == |s.ops| * c.maxop + c.maxop;
    var t := s.(outstanding := s.outstanding + 1, ops := s.ops[p := 0]);
    assert s.phase.Running? && |s.lh| + |s.ops| * c.maxop + c.maxop <= c.g.logsize ==> Step(c, s, BeginOp(p), t);
  }

  /** log_write by an operation that has budget left cannot panic if sb.nlog > LOGSIZE. */
  lemma LogWriteSafe(c: Params, s: State, p: Proc)
    requires Reachable(c, s) && p in s.ops && s.ops[p] < c.maxop
    requires c.g.size > c.g.logsize
    ensures !LogWritePanics(c, s)
  {
    var run, events :| IsRun(c, run, events) && run[|events|] == s;
    RunAdmitted(c, run, events, |events|);
    UnspentWithout(c, s.ops, p);
    UnspentBounds(c, s.ops - {p});
    assert |s.ops.Keys| > 0;
  }

  /** p is about to call log_write on b within its budget: it holds the buffer, inside an
      operation, and b is in the header already or p may still add a block. */
  predicate CallsLogWrite(c: Params, s: State, p: Proc, b: int) {
    && Holds(s, p, b) && s.cache[b].valid && p in s.ops
    && (b !in s.lh ==> s.ops[p] < c.maxop)
  }

  /** Such a call panics exactly when the header is full. If sb.nlog > LOGSIZE, full means
      LOGSIZE blocks; then every budget is spent, and b is in the header already. */
  lemma LogWritePanicsExactly(c: Params, s: State, p: Proc, b: int)
    requires Reachable(c, s) && CallsLogWrite(c, s, p, b)
    ensures LogWritePanics(c, s) <==> |s.lh| == c.g.logsize || |s.lh| >= c.g.size - 1
    ensures c.g.size > c.g.logsize ==> (LogWritePanics(c, s) <==> |s.lh| == c.g.logsize)
    ensures c.g.size > c.g.logsize && LogWritePanics(c, s) ==>
              b in s.lh && forall q :: q in s.ops ==> s.ops[q] == c.maxop
  {
    var run, events :| IsRun(c, run, events) && run[|events|] == s;
    RunAdmitted(c, run, events, |events|);
    UnspentBounds(c, s.ops);
    assert |s.ops.Keys| > 0;
    if c.g.size > c.g.logsize && LogWritePanics(c, s) {
      forall q | q in s.ops ensures s.ops[q] == c.maxop {
        UnspentWithout(c, s.ops, q);
        UnspentBounds(c, s.ops - {q});
      }
    }
  }

  // ---------------------------------------------------------------------
  // Runs that fill the header

  lemma ReachableStep(c: Params, s: State, e: Event, t: State)
    requires Reachable(c, s) && Step(c, s, e, t)
    ensures Reachable(c, t)
  {
    var run, events :| IsRun(c, run, events) && run[|events|] == s;
    var run', events' := run + [t], events + [e];
    forall i | 0 <= i < |events'| ensures Step(c, run'[i], events'[i], run'[i + 1]) {
      if i < |events| {
        assert run'[i] == run[i] && events'[i] == events[i] && run'[i + 1] == run[i + 1];
      }
    }
    assert IsRun(c, run', events') && run'[|events'|] == t;
  }

  /** The parameters of param.h, for any MAXOPBLOCKS, and room for some home blocks. */
  predicate Standard(c: Params) {
    && c.g.Ok()
    && 1 <= c.maxop
    && c.g.logsize == 3 * c.maxop
    && c.g.start + 2 * c.g.size <= c.g.nblocks
  }

  function ZeroDisk(g: Geometry): Disk {
    seq(g.nblocks, _ => seq(g.words, _ => 0))
  }

  /** The first m blocks after the log. */
  function HomeBlocks(c: Params, m: nat): (s: seq<int>)
    ensures |s| == m
    ensures forall b :: b in s <==> c.g.start + c.g.size <= b < c.g.start + c.g.size + m
  {
    if m == 0 then [] else HomeBlocks(c, m - 1) + [c.g.start + c.g.size + m - 1]
  }

  function Clamp(n: int, hi: nat): nat {
    if n <= 0 then 0 else if n <= hi then n else hi
  }

  /** Three operations are running and have logged m different blocks between them. */
  function Logged(c: Params, m: nat): State
    requires c.g.start + c.g.size + m <= c.g.nblocks
  {
    var d := ZeroDisk(c.g);
    State(d,
          map b | c.g.start + c.g.size <= b < c.g.start + c.g.size + m :: Buf(d[b], true, 1, {}, Free, false),
          HomeBlocks(c, m),
          3,
          map[0 := Clamp(m, c.maxop), 1 := Clamp(m - c.maxop, c.maxop), 2 := Clamp(m - 2 * c.maxop, c.maxop)],
          Running)
  }

  /** The operation that still has budget after m blocks. */
  function Spender(c: Params, m: nat): Proc {
    if m < c.maxop then 0 else if m < 2 * c.maxop then 1 else 2
  }

  lemma ReachBoot(c: Params)
    requires Standard(c)
    ensures Reachable(c, State(ZeroDisk(c.g), map[], [], 0, map[], Running))
  {
    var d := ZeroDisk(c.g);
    assert Head(c.g, d) == [];
    var s0 := State(d, map[], [], 0, map[], Recover(0));
    var none: seq<Event> := [];
    assert IsRun(c, [s0], none) && [s0][|none|] == s0;
    var s1 := State(d, map[], [], 0, map[], Running);
    assert HeadWritten(c.g, d, []) == d by {
      assert HeadBlock([], d[c.g.start]) == d[c.g.start];
    }
    ReachableStep(c, s0, RecoverErase, s1);
  }

  lemma ReachStart(c: Params)
    requires Standard(c)
    ensures Reachable(c, Logged(c, 0))
  {
    hide Reachable, ZeroDisk;
    ReachBoot(c);
    var s1 := State(ZeroDisk(c.g), map[], [], 0, map[], Running);
    var s2 := s1.(outstanding := 1, ops := map[0 := 0]);
    ReachableStep(c, s1, BeginOp(0), s2);
    var s3 := s2.(outstanding := 2, ops := map[0 := 0, 1 := 0]);
    ReachableStep(c, s2, BeginOp(1), s3);
    var s4 := s3.(outstanding := 3, ops := map[0 := 0, 1 := 0, 2 := 0]);
    ReachableStep(c, s3, BeginOp(2), s4);
    assert s4 == Logged(c, 0) by {
      NothingLogged(c);
    }
  }

  lemma NothingLogged(c: Params)
    requires Standard(c)
    ensures Logged(c, 0) == State(ZeroDisk(c.g), map[], [], 3, map[0 := 0, 1 := 0, 2 := 0], Running)
  {
  }

  /** p reads block b into a new buffer and logs it. */
  function LoggedBlock(s: State, p: Proc, b: int): State
    requires p in s.ops && 0 <= b < |s.disk|
  {
    s.(cache := s.cache[b := Buf(s.disk[b], true, 1, {}, Free, false)],
       lh := s.lh + [b],
       ops := s.ops[p := s.ops[p] + 1])
  }

  lemma ReachLoggedBlock(c: Params, s: State, p: Proc, b: int)
    requires Reachable(c, s) && s.phase.Running? && !LogWritePanics(c, s)
    requires p in s.ops && s.ops[p] < c.maxop
    requires c.g.Home(b) && 0 <= b < |s.disk| && b !in s.cache && b !in s.lh
    ensures Reachable(c, LoggedBlock(s, p, b))
  {
    hide Reachable;
    var f1 := Buf([], false, 1, {p}, Free, false);
    var s1 := SetBuf(s, b, f1);
    ReachableStep(c, s, Bget(p, b), s1);
    var s2 := SetBuf(s, b, f1.(locker := HeldBy(p)));
    assert s2 == SetBuf(s1, b, f1.(locker := HeldBy(p)));
    ReachableStep(c, s1, Lock(p, b), s2);
    var f3 := Buf(s.disk[b], true, 1, {p}, HeldBy(p), false);
    var s3 := SetBuf(s, b, f3);
    assert s3 == SetBuf(s2, b, f3);
    ReachableStep(c, s2, Fill(p, b), s3);
    ReachLogAndRelease(c, s, p, b);
  }

  /** p has logged block b and still holds its buffer. */
  function LoggedHeld(s: State, p: Proc, b: int): State
    requires p in s.ops && 0 <= b < |s.disk|
  {
    SetBuf(s, b, Buf(s.disk[b], true, 2, {p}, HeldBy(p), false)).(lh := s.lh + [b], ops := s.ops[p := s.ops[p] + 1])
  }

  lemma ReachLog(c: Params, s: State, p: Proc, b: int)
    requires s.phase.Running? && !LogWritePanics(c, s)
    requires p in s.ops && s.ops[p] < c.maxop
    requires 0 <= b < |s.disk| && b !in s.lh
    requires Reachable(c, SetBuf(s, b, Buf(s.disk[b], true, 1, {p}, HeldBy(p), false)))
    ensures Reachable(c, LoggedHeld(s, p, b))
  {
    hide Reachable;
    var s3, s4 := SetBuf(s, b, Buf(s.disk[b], true, 1, {p}, HeldBy(p), false)), LoggedHeld(s, p, b);
    assert s4.cache == s3.cache[b := Buf(s.disk[b], true, 2, {p}, HeldBy(p), false)];
    ReachableStep(c, s3, LogWrite(p, b), s4);
  }

  lemma ReachLogAndRelease(c: Params, s: State, p: Proc, b: int)
    requires s.phase.Running? && !LogWritePanics(c, s)
    requires p in s.ops && s.ops[p] < c.maxop
    requires 0 <= b < |s.disk| && b !in s.lh
    requires Reachable(c, SetBuf(s, b, Buf(s.disk[b], true, 1, {p}, HeldBy(p), false)))
    ensures Reachable(c, LoggedBlock(s, p, b))
  {
    hide Reachable;
    ReachLog(c, s, p, b);
    var s4, s5 := LoggedHeld(s, p, b), LoggedBlock(s, p, b);
    assert {p} - {p} == {};
    assert s5.cache == s4.cache[b := Buf(s.disk[b], true, 1, {}, Free, false)];
    ReachableStep(c, s4, Brelse(p, b), s5);
  }

  lemma SpentNext(c: Params, m: nat)
    requires Standard(c) && m + 1 <= c.g.logsize
    ensures var p := Spender(c, m);
            var ops := map[0 := Clamp(m, c.maxop), 1 := Clamp(m - c.maxop, c.maxop), 2 := Clamp(m - 2 * c.maxop, c.maxop)];
            && ops[p] < c.maxop
            && ops[p := ops[p] + 1]
               == map[0 := Clamp(m + 1, c.maxop), 1 := Clamp(m + 1 - c.maxop, c.maxop), 2 := Clamp(m + 1 - 2 * c.maxop, c.maxop)]
  {
  }

  lemma LoggedNext(c: Params, m: nat)
    requires Standard(c) && m + 1 < c.g.size && m + 1 <= c.g.logsize
    ensures LoggedBlock(Logged(c, m), Spender(c, m), c.g.start + c.g.size + m) == Logged(c, m + 1)
  {
    hide Clamp;
    SpentNext(c, m);
    var s, t := LoggedBlock(Logged(c, m), Spender(c, m), c.g.start + c.g.size + m), Logged(c, m + 1);
    assert s.cache == t.cache;
    assert s.lh == t.lh;
  }

  lemma ReachNext(c: Params, m: nat)
    requires Standard(c) && m + 1 < c.g.size && m + 1 <= c.g.logsize
    requires Reachable(c, Logged(c, m))
    ensures Reachable(c, Logged(c, m + 1))
  {
    hide Reachable, LoggedBlock;
    var s := Logged(c, m);
    var p, b := Spender(c, m), c.g.start + c.g.size + m;
    ReachLoggedBlock(c, s, p, b);
    LoggedNext(c, m);
  }

  lemma {:induction false} ReachLogged(c: Params, m: nat)
    requires Standard(c) && m < c.g.size && m <= c.g.logsize
    ensures Reachable(c, Logged(c, m))
  {
    if m == 0 {
      ReachStart(c);
    } else {
      ReachLogged(c, m - 1);
      ReachNext(c, m - 1);
    }
  }

  /** log_write by an operation that has budget left never panics if and only if the
      file system has more log blocks than LOGSIZE. mkfs makes exactly LOGSIZE. */
  lemma LogWriteSafeIff(c: Params)
    requires Standard(c)
    ensures (forall s, p :: Reachable(c, s) && p in s.ops && s.ops[p] < c.maxop ==> !LogWritePanics(c, s))
        <==> c.g.size > c.g.logsize
  {
    if c.g.size > c.g.logsize {
      forall s, p | Reachable(c, s) && p in s.ops && s.ops[p] < c.maxop ensures !LogWritePanics(c, s) {
        LogWriteSafe(c, s, p);
      }
    } else {
      var m := c.g.size - 1;
      ReachLogged(c, m);
      var s, p := Logged(c, m), Spender(c, m);
      assert Reachable(c, s) && p in s.ops && s.ops[p] < c.maxop && LogWritePanics(c, s);
    }
  }

  /** The state of a full header in which process 0 has read and locked block b again. */
  function Rereading(c: Params, b: int): State
    requires c.g.start + c.g.size + c.g.logsize <= c.g.nblocks && 0 <= b < c.g.nblocks
  {
    SetBuf(Logged(c, c.g.logsize), b, Buf(ZeroDisk(c.g)[b], true, 2, {0}, HeldBy(0), false))
  }

  /** However large the log is, a log_write within budget can panic: three operations log
      MAXOPBLOCKS blocks each, and one of them logs any of these blocks b once more. */
  lemma AbsorbedWritePanics(c: Params, b: int)
    requires Standard(c) && c.g.size > c.g.logsize
    requires c.g.start + c.g.size <= b < c.g.start + c.g.size + c.g.logsize
    ensures var s := Rereading(c, b);
            && Reachable(c, s) && CallsLogWrite(c, s, 0, b) && b in s.lh
            && |s.lh| == c.g.logsize && LogWritePanics(c, s)
            && forall q :: q in s.ops ==> s.ops[q] <= c.maxop
  {
    hide Reachable;
    var s, d := Logged(c, c.g.logsize), ZeroDisk(c.g);
    ReachLogged(c, c.g.logsize);
    var s1 := SetBuf(s, b, Buf(d[b], true, 2, {0}, Free, false));
    assert {} + {0} == {0};
    ReachableStep(c, s, Bget(0, b), s1);
    var t := Rereading(c, b);
    assert t == SetBuf(s1, b, Buf(d[b], true, 2, {0}, HeldBy(0), false));
    ReachableStep(c, s1, Lock(0, b), t);
  }
}
