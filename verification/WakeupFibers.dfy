/** Every step keeps "one wake-up, one execution" (FibersOk and ThreadsOk). */
module WakeupFibers {
  import opened Counting
  import opened Tasks
  import opened FdEvents
  import opened FdEventProofs
  import opened Wakeup
  import opened WakeupInvariant

  ghost predicate Core(s: Sys) { |s.states| == |s.progs| && FibersOk(s) && ThreadsOk(s) && IoInv(s.io) }

  ghost predicate Kept(s: Sys) { |s.states| == |s.progs| && FibersOk(s) && ThreadsOk(s) }

  // ----- three shapes of step

  /** A step that touches no thread and no fiber state: wake-ups may appear only for fibers no
      thread is running, or for one that is about to yield. */
  lemma CodeStep(s: Sys, s': Sys)
    requires Kept(s)
    requires s'.threads == s.threads && s.states <= s'.states && |s'.states| == |s'.progs|
    requires forall g :: |s.states| <= g < |s'.states| ==> s'.states[g].Init?
    requires forall g: nat :: Wakeups(s', WakeOf(g)) <= Wakeups(s, WakeOf(g)) || NewWakeup(s, s', g)
    requires forall g :: 0 <= g < |s.progs| ==>
      s'.progs[g] == s.progs[g] || s'.progs[g].Waiting() || Wakeups(s', WakeOf(g)) == 0
    ensures Kept(s')
  {
    forall f: nat ensures FiberOk(s', f) {
      assert FiberOk(s, f);
    }
    forall t | 0 <= t < |s'.threads| ensures ThreadOk(s', s'.threads[t]) {
      assert ThreadOk(s, s.threads[t]);
      if s.threads[t].pc.Running? {
        ThreadsBound(s, t, WakeOf(s.threads[t].pc.fiber));
      }
      if s.threads[t].pc.Picked? && s.threads[t].pc.entry.task.FiberTask? {
        var f := s.threads[t].pc.entry.task.fiber;
        ThreadsBound(s, t, WakeOf(f));
        assert FiberOk(s, f);
      }
    }
  }

  ghost predicate NewWakeup(s: Sys, s': Sys, g: nat)
  {
    && Wakeups(s', WakeOf(g)) <= 1 && g < |s'.states|
    && (!IsRunning(s, g) || (g < |s'.progs| && s'.progs[g].Waiting()))
  }

  /** A step of one scheduler thread that changes no fiber's state or code and executes what it
      executed before. */
  lemma ThreadStep(s: Sys, s': Sys, t: nat)
    requires Kept(s) && t < |s.threads|
    requires s'.states == s.states && s'.progs == s.progs && |s'.threads| == |s.threads|
    requires forall u :: 0 <= u < |s.threads| && u != t ==> s'.threads[u] == s.threads[u]
    requires forall f: nat :: Executions(s', f) == Executions(s, f)
    requires forall f: nat :: Wakeups(s', WakeOf(f)) <= Wakeups(s, WakeOf(f))
    requires PcOk(s', s'.threads[t].pc) && s'.threads[t].cbFiber == s.threads[t].cbFiber
    ensures Kept(s')
  {
    forall f: nat ensures FiberOk(s', f) {
      assert FiberOk(s, f);
    }
    forall u | 0 <= u < |s'.threads| ensures ThreadOk(s', s'.threads[u]) {
      assert ThreadOk(s, s.threads[u]);
    }
  }

  /** A step of thread `t` that changes the state of one fiber `f`, which no other thread executes or
      has cached, or is about to switch to if it becomes EXEC. */
  lemma FiberStep(s: Sys, s': Sys, t: nat, f: nat)
    requires Kept(s) && t < |s.threads| == |s'.threads| && f < |s'.states|
    requires s.states <= s'.states[f := if f < |s.states| then s.states[f] else s'.states[f]]
    requires |s'.states| == |s'.progs| && (f < |s.states| ==> |s'.states| == |s.states|)
    requires f >= |s.states| ==> f == |s.states| && |s'.states| == f + 1
    requires forall g :: 0 <= g < |s.progs| && g != f ==> s'.progs[g] == s.progs[g]
    requires forall u :: 0 <= u < |s.threads| && u != t ==> s'.threads[u] == s.threads[u]
    requires forall u :: 0 <= u < |s.threads| && u != t ==> Uninvolved(s, u, f, s'.states[f])
    requires forall g: nat :: g != f ==> Executions(s', g) == Executions(s, g)
    requires forall g: nat :: g != f ==> Wakeups(s', WakeOf(g)) <= Wakeups(s, WakeOf(g))
    requires Wakeups(s', WakeOf(f)) <= 1
    requires Executions(s', f) <= 1 && (Executions(s', f) == 0 ==> !s'.states[f].Exec?)
    requires ThreadOk(s', s'.threads[t])
    ensures Kept(s')
  {
    forall g: nat ensures FiberOk(s', g) {
      assert FiberOk(s, g);
    }
    forall u | 0 <= u < |s'.threads| ensures ThreadOk(s', s'.threads[u]) {
      if u != t {
        assert ThreadOk(s, s.threads[u]) && Uninvolved(s, u, f, s'.states[f]);
        var pc := s.threads[u].pc;
        if pc.Picked? && pc.entry.task.FiberTask? {
          var g := pc.entry.task.fiber;
          ThreadsBound(s, u, WakeOf(g));
          assert FiberOk(s, g);
        }
      }
    }
  }

  predicate Uninvolved(s: Sys, u: nat, f: nat, st: FiberState)
    requires u < |s.threads|
  {
    var th := s.threads[u];
    && ExecWeight(f, th) == 0 && th.cbFiber != Some(f)
    && (st.Exec? && th.pc.Picked? ==> th.pc.entry.task != FiberTask(f))
  }

  // ----- Scheduler::run

  lemma ScanKeeps(s: Sys, t: nat)
    requires Core(s) && AtScan(s, t)
    ensures Kept(DoScan(s, t))
  {
    var s' := DoScan(s, t);
    var th' := s'.threads[t];
    var i := FirstEligible(s.queue, t, s.states);
    var s1 := if i < |s.queue| then s.(queue := Without(s.queue, i), active := s.active + 1) else s;
    forall f: nat
      ensures Executions(s', f) == Executions(s, f) && Wakeups(s', WakeOf(f)) <= Wakeups(s, WakeOf(f))
    {
      ExecDelta(s1, t, th', f);
      ThreadDelta(s1, t, th', WakeOf(f));
      if i < |s.queue| {
        DequeueDelta(s, i, WakeOf(f));
      } else {
        assert th'.pc.Idle? ==> Sum(th'.pc.cbs, OfClosure(WakeOf(f))) == 0;
      }
    }
    ThreadStep(s, s', t);
  }

  lemma DropKeeps(s: Sys, t: nat)
    requires Core(s) && AtPicked(s, t) && s.threads[t].pc.entry.task.FiberTask?
    requires StateOf(s.states, s.threads[t].pc.entry.task.fiber).Finished()
    ensures Kept(DoSwitch(s, t))
  {
    var s' := DoSwitch(s, t);
    forall f: nat
      ensures Executions(s', f) == Executions(s, f) && Wakeups(s', WakeOf(f)) <= Wakeups(s, WakeOf(f))
    {
      ExecDelta(s.(active := s.active - 1), t, s'.threads[t], f);
      ThreadDelta(s.(active := s.active - 1), t, s'.threads[t], WakeOf(f));
    }
    ThreadStep(s, s', t);
  }

  /** Thread `t` is about to drop an entry or to run a callback on a new fiber. */
  predicate RunsNoOldFiber(s: Sys, t: nat)
    requires AtPicked(s, t)
  {
    var th := s.threads[t];
    if th.pc.entry.task.FiberTask? then StateOf(s.states, th.pc.entry.task.fiber).Finished() else th.cbFiber.None?
  }

  /** Thread `t` has dequeued the fiber, or has it cached for callbacks. */
  predicate AboutToRun(s: Sys, t: nat, f: nat)
  {
    && AtPicked(s, t) && f < |s.states|
    && var th := s.threads[t];
       if th.pc.entry.task.FiberTask? then f == th.pc.entry.task.fiber && !s.states[f].Finished()
       else th.cbFiber == Some(f)
  }

  /** The fiber a thread is about to switch to is executing nowhere: TINY_ASSERT in swapIn holds. */
  lemma AboutToRunIsParked(s: Sys, t: nat, f: nat)
    requires Kept(s) && AboutToRun(s, t, f)
    ensures Executions(s, f) == 0 && !s.states[f].Exec? && Wakeups(s, WakeOf(f)) == 1
    ensures ThreadWeight(WakeOf(f), s.threads[t]) == 1
  {
    ThreadsBound(s, t, WakeOf(f));
    assert FiberOk(s, f) && ThreadOk(s, s.threads[t]);
    if Executions(s, f) > 0 {
      var u := SumPositive(s.threads, OfExec(f));
      assert ThreadOk(s, s.threads[u]);
      if u != t {
        OnlyOneHolder(s, f, t, u);
      }
    }
  }

  /** The counts after a switch to `f`. */
  ghost predicate SwitchedTo(s: Sys, s': Sys, f: nat, p: Probe)
  {
    && Wakeups(s', p) <= Wakeups(s, p)
    && (p == WakeOf(f) ==> Wakeups(s', p) == 0)
    && (p.WakeOf? ==> Executions(s', p.fiber) == Executions(s, p.fiber) + (if p.fiber == f then 1 else 0))
  }

  lemma SwitchFiberCounts(s: Sys, t: nat, f: nat, p: Probe)
    requires Kept(s) && AboutToRun(s, t, f) && s.threads[t].pc.entry.task.FiberTask?
    ensures SwitchedTo(s, DoSwitch(s, t), f, p)
  {
    var th := s.threads[t];
    AboutToRunIsParked(s, t, f);
    ThreadAndProgDelta(s, DoSwitch(s, t), t, th.(pc := Running(f, false, th.pc.entry)), f, s.progs[f].Resumed(), p);
  }

  lemma SwitchCachedCounts(s: Sys, t: nat, f: nat, p: Probe)
    requires Kept(s) && AboutToRun(s, t, f) && s.threads[t].pc.entry.task.CbTask?
    ensures SwitchedTo(s, DoSwitch(s, t), f, p)
  {
    var th := s.threads[t];
    AboutToRunIsParked(s, t, f);
    ThreadAndProgDelta(s, DoSwitch(s, t), t, Thread(Running(f, true, th.pc.entry), None, th.idleOver), f,
                       ProgOf(th.pc.entry.task.cb), p);
  }

  lemma SwitchCounts(s: Sys, t: nat, f: nat, p: Probe)
    requires Kept(s) && AboutToRun(s, t, f)
    ensures SwitchedTo(s, DoSwitch(s, t), f, p)
  {
    if s.threads[t].pc.entry.task.FiberTask? {
      SwitchFiberCounts(s, t, f, p);
    } else {
      SwitchCachedCounts(s, t, f, p);
    }
  }

  /** Nobody else executes, has cached, or is about to switch to that fiber. */
  lemma AboutToRunAlone(s: Sys, t: nat, f: nat)
    requires Kept(s) && AboutToRun(s, t, f)
    ensures forall u :: 0 <= u < |s.threads| && u != t ==> Uninvolved(s, u, f, Exec)
  {
    AboutToRunIsParked(s, t, f);
    assert FiberOk(s, f);
    forall u | 0 <= u < |s.threads| && u != t ensures Uninvolved(s, u, f, Exec) {
      OnlyOneHolder(s, f, t, u);
      SumAt(s.threads, u, OfExec(f));
    }
  }

  /** The shape of the state after a switch to a fiber that exists. */
  lemma SwitchShape(s: Sys, t: nat, f: nat)
    requires Kept(s) && AboutToRun(s, t, f)
    ensures var s' := DoSwitch(s, t);
            && s'.states == s.states[f := Exec] && |s'.progs| == |s.progs|
            && (forall g :: 0 <= g < |s.progs| && g != f ==> s'.progs[g] == s.progs[g])
            && |s'.threads| == |s.threads|
            && (forall u :: 0 <= u < |s.threads| && u != t ==> s'.threads[u] == s.threads[u])
            && s'.threads[t].pc.Running? && s'.threads[t].pc.fiber == f
            && (s'.threads[t].cbFiber.Some? ==> s'.threads[t].cbFiber == s.threads[t].cbFiber != Some(f))
  {
    AboutToRunIsParked(s, t, f);
  }

  lemma SwapInKeeps(s: Sys, t: nat, f: nat)
    requires Kept(s) && AboutToRun(s, t, f)
    ensures Kept(DoSwitch(s, t))
  {
    var s' := DoSwitch(s, t);
    AboutToRunIsParked(s, t, f);
    AboutToRunAlone(s, t, f);
    SwitchShape(s, t, f);
    forall g: nat
      ensures Executions(s', g) == Executions(s, g) + (if g == f then 1 else 0)
      ensures Wakeups(s', WakeOf(g)) <= Wakeups(s, WakeOf(g))
      ensures g == f ==> Wakeups(s', WakeOf(g)) == 0
    {
      SwitchCounts(s, t, f, WakeOf(g));
    }
    assert ThreadOk(s, s.threads[t]);
    FiberStep(s, s', t, f);
  }

  lemma SwitchNewCounts(s: Sys, t: nat, p: Probe)
    requires Kept(s) && AtPicked(s, t) && s.threads[t].pc.entry.task.CbTask? && s.threads[t].cbFiber.None?
    ensures var s' := DoSwitch(s, t);
            && Wakeups(s', p) <= Wakeups(s, p)
            && (p.WakeOf? ==>
                  Executions(s', p.fiber) == Executions(s, p.fiber) + (if p.fiber == |s.states| then 1 else 0))
  {
    var s', prog := DoSwitch(s, t), ProgOf(s.threads[t].pc.entry.task.cb);
    NewFiberDelta(s, prog, p);
    ThreadAndProgDelta(NewFiber(s, prog), s', t, s'.threads[t], |s.states|, prog, p);
    assert p.WakeOf? ==> Executions(NewFiber(s, prog), p.fiber) == Executions(s, p.fiber);
  }

  /** A callback run on a new fiber. */
  lemma SwapInNewKeeps(s: Sys, t: nat)
    requires Kept(s) && AtPicked(s, t) && s.threads[t].pc.entry.task.CbTask? && s.threads[t].cbFiber.None?
    ensures Kept(DoSwitch(s, t))
  {
    var s', f := DoSwitch(s, t), |s.states|;
    assert FiberOk(s, f);
    forall g: nat
      ensures Executions(s', g) == Executions(s, g) + (if g == f then 1 else 0)
      ensures Wakeups(s', WakeOf(g)) <= Wakeups(s, WakeOf(g))
    {
      SwitchNewCounts(s, t, WakeOf(g));
    }
    forall u | 0 <= u < |s.threads| && u != t ensures Uninvolved(s, u, f, Exec) {
      ThreadsBound(s, u, WakeOf(f));
    }
    FiberStep(s, s', t, f);
  }

  lemma SwitchKeeps(s: Sys, t: nat)
    requires Core(s) && AtPicked(s, t)
    ensures Kept(DoSwitch(s, t))
  {
    var th := s.threads[t];
    match th.pc.entry.task
    case FiberTask(f) =>
      ThreadsBound(s, t, WakeOf(f));
      assert FiberOk(s, f);
      if StateOf(s.states, f).Finished() {
        DropKeeps(s, t);
      } else {
        SwapInKeeps(s, t, f);
      }
    case CbTask(_) =>
      if th.cbFiber.None? {
        SwapInNewKeeps(s, t);
      } else {
        assert ThreadOk(s, th);
        SwapInKeeps(s, t, th.cbFiber.value);
      }
  }

  /** A step in which thread `t` only changes its pc, keeping what it executes. */
  lemma PcStep(s: Sys, s': Sys, t: nat)
    requires Kept(s) && t < |s.threads| == |s'.threads|
    requires s'.states == s.states && s'.progs == s.progs
    requires s'.queue == s.queue && s'.io == s.io && s'.timers == s.timers
    requires s'.threads == s.threads[t := s.threads[t].(pc := s'.threads[t].pc)]
             || s'.threads == s.threads[t := s.threads[t].(pc := s'.threads[t].pc, idleOver := true)]
    requires forall f: nat :: ExecWeight(f, s'.threads[t]) == ExecWeight(f, s.threads[t])
    requires forall f: nat :: PcWeight(WakeOf(f), s'.threads[t].pc) <= PcWeight(WakeOf(f), s.threads[t].pc)
    requires ThreadOk(s, s.threads[t]) ==> PcOk(s, s'.threads[t].pc)
    requires !s'.threads[t].pc.Running?
    ensures Kept(s')
  {
    forall f: nat
      ensures Executions(s', f) == Executions(s, f) && Wakeups(s', WakeOf(f)) <= Wakeups(s, WakeOf(f))
    {
      ExecDelta(s, t, s'.threads[t], f);
      ThreadDelta(s, t, s'.threads[t], WakeOf(f));
      assert SetThread(s, t, s'.threads[t]).threads == s'.threads;
    }
    ThreadStep(s, s', t);
  }

  lemma CountDownKeeps(s: Sys, t: nat)
    requires Core(s) && AtYielded(s, t)
    ensures Kept(DoCountDown(s, t))
  {
    PcStep(s, DoCountDown(s, t), t);
  }

  lemma YieldToHoldKeeps(s: Sys, t: nat)
    requires Core(s) && Runs(s, t)
    ensures Kept(DoYieldToHold(s, t))
  {
    PcStep(s, DoYieldToHold(s, t), t);
  }

  /** Leaving the idle fiber, and the reads of stopping() in it. */
  predicate InStopping(move: Move)
  {
    move.LeaveIdle? || move.SeeNoTimers? || move.SeeNoPending? || move.NotStopping? || move.EndIdle?
  }

  lemma LeaveIdleKeeps(s: Sys, t: nat, move: Move)
    requires Core(s) && CanMove(s, t, move) && InStopping(move)
    ensures Kept(DoMove(s, t, move))
  {
    PcStep(s, DoMove(s, t, move), t);
  }

  /** Leaving with READY or at the end of the function: the thread takes over the fiber's wake-up,
      of which there was none. */
  lemma LeaveKeeps(s: Sys, t: nat, st: FiberState, how: How)
    requires Core(s) && Runs(s, t) && Wakeups(s, WakeOf(s.threads[t].pc.fiber)) == 0 && LeftBy(how, st) && !how.ByHold?
    ensures Kept(DoLeave(s, t, st, how))
  {
    var s' := DoLeave(s, t, st, how);
    var f := s.threads[t].pc.fiber;
    assert ThreadOk(s, s.threads[t]) && FiberOk(s, f);
    forall g: nat
      ensures Executions(s', g) == Executions(s, g)
      ensures Wakeups(s', WakeOf(g)) <= Wakeups(s, WakeOf(g)) + (if g == f then 1 else 0)
    {
      LeaveCounts(s, t, st, how, g);
    }
    OthersUninvolved(s, t, f, st);
    FiberStep(s, s', t, f);
  }

  lemma LeaveCounts(s: Sys, t: nat, st: FiberState, how: How, g: nat)
    requires Runs(s, t)
    ensures var s', f := DoLeave(s, t, st, how), s.threads[t].pc.fiber;
            && Executions(s', g) == Executions(s, g)
            && Wakeups(s', WakeOf(g)) <= Wakeups(s, WakeOf(g)) + (if g == f then 1 else 0)
  {
    var s' := DoLeave(s, t, st, how);
    ExecDelta(s, t, s'.threads[t], g);
    ThreadDelta(s, t, s'.threads[t], WakeOf(g));
  }

  /** A fiber that thread `t` executes, and that does not become EXEC, involves no other thread. */
  lemma OthersUninvolved(s: Sys, t: nat, f: nat, st: FiberState)
    requires Kept(s) && t < |s.threads| && ExecWeight(f, s.threads[t]) == 1 && !st.Exec?
    ensures forall u :: 0 <= u < |s.threads| && u != t ==> Uninvolved(s, u, f, st)
    ensures Executions(s, f) == 1
  {
    assert FiberOk(s, f);
    ThreadsBound(s, t, WakeOf(f));
    forall u | 0 <= u < |s.threads| && u != t ensures Uninvolved(s, u, f, st) {
      OnlyOneExecutor(s, f, t, u);
      assert ThreadOk(s, s.threads[u]);
    }
  }

  // ----- settling

  /** While a thread executes a callback it has no fiber cached. */
  predicate CachesOne(th: Thread)
  {
    (th.pc.Running? || th.pc.Yielded? || th.pc.Counted?) && th.pc.viaCb ==> th.cbFiber.None?
  }

  lemma SettleCounts(s: Sys, t: nat, g: nat)
    requires Kept(s) && AtCounted(s, t)
    ensures var s' := DoSettle(s, t);
            && Executions(s', g) + (if g == s.threads[t].pc.fiber then 1 else 0) == Executions(s, g)
            && Wakeups(s', WakeOf(g)) <= Wakeups(s, WakeOf(g))
            && (CachesOne(s.threads[t]) ==> Wakeups(s', WakeOf(g)) == Wakeups(s, WakeOf(g)))
  {
    var s' := DoSettle(s, t);
    var th', f := s'.threads[t], s.threads[t].pc.fiber;
    assert ThreadOk(s, s.threads[t]);
    ExecDelta(s, t, th', g);
    ThreadDelta(s, t, th', WakeOf(g));
    var s1 := SetThread(s, t, th');
    assert s'.threads == s1.threads;
    if s.states[f].Ready? {
      PushDelta(s1, FiberTask(f), ANY_THREAD, WakeOf(g));
    }
  }

  lemma SettleKeeps(s: Sys, t: nat)
    requires Core(s) && AtCounted(s, t)
    ensures Kept(DoSettle(s, t))
  {
    var s' := DoSettle(s, t);
    var f := s.threads[t].pc.fiber;
    assert ThreadOk(s, s.threads[t]) && FiberOk(s, f);
    forall g: nat
      ensures Executions(s', g) + (if g == f then 1 else 0) == Executions(s, g)
      ensures Wakeups(s', WakeOf(g)) <= Wakeups(s, WakeOf(g))
    {
      SettleCounts(s, t, g);
    }
    OthersUninvolved(s, t, f, s'.states[f]);
    FiberStep(s, s', t, f);
  }

  // ----- IOManager::idle

  lemma ExpireCounts(s: Sys, t: nat, i: nat, recurring: bool, p: Probe)
    requires CanMove(s, t, Expire(i, recurring))
    ensures Wakeups(DoExpire(s, t, i, recurring), p) == Wakeups(s, p)
    ensures p.WakeOf? ==> Executions(DoExpire(s, t, i, recurring), p.fiber) == Executions(s, p.fiber)
  {
    var s', th, c := DoExpire(s, t, i, recurring), s.threads[t], s.timers[i].value;
    var th' := th.(pc := Idle(th.pc.cbs + [c]));
    var s1 := s.(timers := s'.timers);
    SumSnoc(th.pc.cbs, c, OfClosure(p));
    if !recurring {
      DisarmDelta(s, i, p);
    }
    ThreadDelta(s1, t, th', p);
    if p.WakeOf? {
      ExecDelta(s1, t, th', p.fiber);
    }
  }

  lemma FlushCounts(s: Sys, t: nat, p: Probe)
    requires AtIdle(s, t)
    ensures Wakeups(DoFlush(s, t), p) == Wakeups(s, p)
    ensures p.WakeOf? ==> Executions(DoFlush(s, t), p.fiber) == Executions(s, p.fiber)
  {
    var th, cbs := s.threads[t], s.threads[t].pc.cbs;
    var th' := th.(pc := Idle([]));
    var tasks := seq(|cbs|, i requires 0 <= i < |cbs| => CbTask(cbs[i]));
    ThreadDelta(s, t, th', p);
    PushAllDelta(SetThread(s, t, th'), tasks, p);
    SumPointwise(cbs, OfClosure(p), tasks, OfTask(p));
    if p.WakeOf? {
      ExecDelta(s, t, th', p.fiber);
    }
  }

  lemma ExpireKeepsFibers(s: Sys, t: nat, i: nat, recurring: bool)
    requires Core(s) && CanMove(s, t, Expire(i, recurring))
    ensures Kept(DoExpire(s, t, i, recurring))
  {
    var s' := DoExpire(s, t, i, recurring);
    forall f: nat
      ensures Executions(s', f) == Executions(s, f) && Wakeups(s', WakeOf(f)) <= Wakeups(s, WakeOf(f))
    {
      ExpireCounts(s, t, i, recurring, WakeOf(f));
    }
    ThreadStep(s, s', t);
  }

  lemma FlushKeeps(s: Sys, t: nat)
    requires Core(s) && AtIdle(s, t)
    ensures Kept(DoFlush(s, t))
  {
    var s' := DoFlush(s, t);
    forall f: nat
      ensures Executions(s', f) == Executions(s, f) && Wakeups(s', WakeOf(f)) <= Wakeups(s, WakeOf(f))
    {
      FlushCounts(s, t, WakeOf(f));
    }
    ThreadStep(s, s', t);
  }

  lemma MoveKeeps(s: Sys, t: nat, move: Move)
    requires Core(s) && CanMove(s, t, move)
    ensures Kept(DoMove(s, t, move))
  {
    match move
    case Scan => ScanKeeps(s, t);
    case Switch => SwitchKeeps(s, t);
    case CountDown => CountDownKeeps(s, t);
    case Settle => SettleKeeps(s, t);
    case Expire(i, recurring) => ExpireKeepsFibers(s, t, i, recurring);
    case Flush => FlushKeeps(s, t);
    case LeaveIdle => LeaveIdleKeeps(s, t, move);
    case SeeNoTimers => LeaveIdleKeeps(s, t, move);
    case SeeNoPending => LeaveIdleKeeps(s, t, move);
    case NotStopping => LeaveIdleKeeps(s, t, move);
    case EndIdle => LeaveIdleKeeps(s, t, move);
    case YieldToHold => YieldToHoldKeeps(s, t);
    case YieldToReady => LeaveKeeps(s, t, FiberState.Ready, ByReady);
    case End(st) =>
      assert ThreadOk(s, s.threads[t]);
      LeaveKeeps(s, t, st, ByEnd);
  }

  // ----- fd operations

  /** Refused without effect, or armed slots move out of the table. */
  ghost predicate Triggered(io: Io, o: Outcome, p: Slot -> nat)
  {
    o == Refused(io) || (Moves(io, o, p) && forall i :: 0 <= i < |o.woken| ==> o.woken[i].Armed())
  }

  lemma TriggerCounts(s: Sys, o: Outcome, p: Probe)
    requires Triggered(s.io, o, OfSlot(p))
    ensures Wakeups(Absorb(s, o), p) == Wakeups(s, p)
  {
    if o.Done? {
      WakeDelta(s, o, p);
    }
  }

  /** Refused, or one more registration of `who` and nothing triggered. */
  ghost predicate Added(io: Io, o: Outcome, who: Task, p: Probe)
  {
    !o.Aborted? && (o.Done? ==> o.woken == [])
    && Weight(o.io, OfSlot(p)) == Weight(io, OfSlot(p)) + (if o.Done? then TaskWeight(p, who) else 0)
  }

  lemma AddCounts(s: Sys, o: Outcome, who: Task, p: Probe)
    requires Added(s.io, o, who, p)
    ensures Wakeups(Absorb(s, o), p) == Wakeups(s, p) + if o.Done? then TaskWeight(p, who) else 0
  {
    if o.Done? {
      PushAllDelta(s.(io := o.io), [], p);
    }
  }

  lemma AddIsAdded(io: Io, fd: nat, ev: EventType, who: Task, fault: bool, p: Probe)
    requires IoInv(io) && !AddEvent(io, fd, ev, who, fault).Aborted?
    ensures Added(io, AddEvent(io, fd, ev, who, fault), who, p)
  {
    AddEventWeight(io, fd, ev, who, fault, OfSlot(p));
    if AddEvent(io, fd, ev, who, fault).Done? {
      AddEventSlot(io, fd, ev, who, fault);
    }
  }

  /** A successful addEvent stores exactly what it was given, under a new number. */
  lemma AddEventSlot(io: Io, fd: nat, ev: EventType, who: Task, fault: bool)
    requires IoInv(io) && AddEvent(io, fd, ev, who, fault).Done?
    ensures var io' := AddEvent(io, fd, ev, who, fault).io;
            && fd < |io'.fds| && io'.fds[fd].et.Has(ev)
            && io'.fds[fd].Get(ev).Armed() && io'.fds[fd].Get(ev).TaskOf() == who
            && io'.fds[fd].Get(ev).reg == io.nextReg && io'.nextReg == io.nextReg + 1
  {
    GrowKeeps(io, fd);
  }

  lemma DropCounts(s: Sys, fd: nat, ev: EventType, fault: bool, p: Probe)
    requires IoInv(s.io)
    ensures Wakeups(Absorb(s, DelEvent(s.io, fd, ev, fault)), p) <= Wakeups(s, p)
    ensures DelEvent(s.io, fd, ev, fault).Done? ==>
      (fd < |s.io.fds|
       && Wakeups(Absorb(s, DelEvent(s.io, fd, ev, fault)), p) + SlotWeight(p, s.io.fds[fd].Get(ev)) == Wakeups(s, p))
  {
    var o := DelEvent(s.io, fd, ev, fault);
    DelEventKeeps(s.io, fd, ev, fault);
    DelEventWeight(s.io, fd, ev, fault, OfSlot(p));
    if o.Done? {
      PushAllDelta(s.(io := o.io), [], p);
    }
  }

  lemma CancelCounts(s: Sys, fd: nat, ev: EventType, fault: bool, p: Probe)
    requires IoInv(s.io)
    ensures Wakeups(Absorb(s, CancelEvent(s.io, fd, ev, fault)), p) == Wakeups(s, p)
  {
    CancelEventKeeps(s.io, fd, ev, fault, OfSlot(p));
    TriggerCounts(s, CancelEvent(s.io, fd, ev, fault), p);
  }

  lemma CancelFdCounts(s: Sys, fd: nat, fault: bool, p: Probe)
    requires IoInv(s.io)
    ensures Wakeups(Absorb(s, CancelAll(s.io, fd, fault)), p) == Wakeups(s, p)
  {
    CancelAllKeeps(s.io, fd, fault, OfSlot(p));
    TriggerCounts(s, CancelAll(s.io, fd, fault), p);
  }

  lemma ReportCounts(s: Sys, fd: nat, r: Report, fault: bool, p: Probe)
    requires IoInv(s.io) && fd < |s.io.fds| && !Dispatch(s.io, fd, r, fault).Aborted?
    ensures Wakeups(Absorb(s, Dispatch(s.io, fd, r, fault)), p) == Wakeups(s, p)
  {
    DispatchKeeps(s.io, fd, r, fault, OfSlot(p));
    TriggerCounts(s, Dispatch(s.io, fd, r, fault), p);
  }

  // ----- steps from outside

  predicate FdDeed(deed: Deed) { deed.DropEvent? || deed.Cancel? || deed.CancelFd? || deed.Report? }

  lemma FdDeedCounts(s: Sys, deed: Deed, p: Probe)
    requires IoInv(s.io) && CanHappen(s, deed) && FdDeed(deed)
    ensures Wakeups(DoDeed(s, deed), p) <= Wakeups(s, p)
    ensures !deed.DropEvent? ==> Wakeups(DoDeed(s, deed), p) == Wakeups(s, p)
  {
    match deed
    case DropEvent(fd, ev, fault) => DropCounts(s, fd, ev, fault, p);
    case Cancel(fd, ev, fault) => CancelCounts(s, fd, ev, fault, p);
    case CancelFd(fd, fault) => CancelFdCounts(s, fd, fault, p);
    case Report(_, fd, r, fault) => ReportCounts(s, fd, r, fault, p);
  }

  lemma DeedCounts(s: Sys, deed: Deed, p: Probe)
    requires IoInv(s.io) && |s.states| == |s.progs| && CanHappen(s, deed)
    ensures Wakeups(DoDeed(s, deed), p) <= Wakeups(s, p) + Gain(s, deed, p)
    ensures !deed.DropEvent? ==> Wakeups(DoDeed(s, deed), p) == Wakeups(s, p) + Gain(s, deed, p)
  {
    if FdDeed(deed) {
      FdDeedCounts(s, deed, p);
    } else {
      match deed
      case Spawn(thread) =>
        NewFiberDelta(s, Free, p);
        PushDelta(NewFiber(s, Free), FiberTask(|s.states|), thread, p);
      case SpawnCb(id, thread) => PushDelta(s, CbTask(Client(id)), thread, p);
      case ScheduleParked(g, thread) => PushDelta(s, FiberTask(g), thread, p);
      case ClientTimer(id) => ArmDelta(s, Client(id), p);
      case RequestStop =>
    }
  }

  /** The wake-up such a step creates. */
  function Gain(s: Sys, deed: Deed, p: Probe): nat
  {
    if (deed.ScheduleParked? && p == WakeOf(deed.g)) || (deed.Spawn? && p == WakeOf(|s.states|)) then 1 else 0
  }

  lemma DeedShape(s: Sys, deed: Deed)
    requires CanHappen(s, deed)
    ensures var s' := DoDeed(s, deed);
            && s'.threads == s.threads
            && s'.states == (if deed.Spawn? then s.states + [Init] else s.states)
            && s'.progs == (if deed.Spawn? then s.progs + [Free] else s.progs)
            && s'.calls == s.calls && s'.active == s.active
  {
  }

  /** The fiber that gains a wake-up had none and no thread is running it. */
  lemma DeedGain(s: Sys, deed: Deed, g: nat)
    requires Core(s) && CanHappen(s, deed) && Gain(s, deed, WakeOf(g)) == 1
    ensures Wakeups(s, WakeOf(g)) == 0 && !IsRunning(s, g) && g < |s.states| + (if deed.Spawn? then 1 else 0)
  {
    assert FiberOk(s, g);
    forall t | 0 <= t < |s.threads| && deed.Spawn? ensures !(s.threads[t].pc.Running? && s.threads[t].pc.fiber == g) {
      assert ThreadOk(s, s.threads[t]);
    }
  }

  lemma DeedKeeps(s: Sys, deed: Deed)
    requires Core(s) && CanHappen(s, deed)
    ensures Kept(DoDeed(s, deed))
  {
    var s' := DoDeed(s, deed);
    DeedShape(s, deed);
    forall g: nat ensures Wakeups(s', WakeOf(g)) <= Wakeups(s, WakeOf(g)) || NewWakeup(s, s', g) {
      DeedCounts(s, deed, WakeOf(g));
      if Gain(s, deed, WakeOf(g)) == 1 {
        DeedGain(s, deed, g);
      }
    }
    CodeStep(s, s');
  }

  // ----- a fiber's own code

  /** The timer a call is going to cancel is one it armed itself. */
  predicate TimerIsOwn(s: Sys, prog: Prog)
  {
    var timer := TimerOf(prog);
    timer.Some? ==>
      && timer.value < |s.timers|
      && (s.timers[timer.value].Some? ==>
            s.timers[timer.value].value.TimeoutCall? && s.timers[timer.value].value.call == prog.call)
  }

  function TimerOf(prog: Prog): Option<nat>
  {
    if prog.CallAdd? || prog.CallWait? || prog.CallWoken? || prog.CallFailed? then prog.timer else None
  }

  /** Is the code about to cancel its own call's timer, and with it what the probe counts? */
  predicate Disarms(prog: Prog, p: Probe) { (prog.CallWoken? || prog.CallFailed?) && p == TimeoutOf(prog.call) }

  /** The effect of one step of the code of the fiber on thread `t`: only its own position changes,
      and it gains a wake-up, which is then its own, exactly when it is left waiting.  No wake-up is
      lost unless the code cancels a timer that is not its own; no timeout callback is lost unless it
      is the code itself, or the code cancels its own timer. */
  ghost predicate OwnEffect(s: Sys, t: nat, s': Sys, p: Probe, gain: nat)
    requires Runs(s, t)
  {
    var f := s.threads[t].pc.fiber;
    && s'.threads == s.threads && s'.states == s.states && |s'.progs| == |s.progs|
    && (forall g :: 0 <= g < |s.progs| && g != f ==> s'.progs[g] == s.progs[g])
    && !s.progs[f].Waiting()
    && gain <= 1 && Wakeups(s', p) <= Wakeups(s, p) + gain
    && (p.WakeOf? ==> (gain > 0 <==> p == WakeOf(f) && s'.progs[f].Waiting()))
    && (p.WakeOf? && TimerIsOwn(s, s.progs[f]) ==> Wakeups(s', p) == Wakeups(s, p) + gain)
    && (TimerIsOwn(s, s.progs[f]) && ProgWeight(p, s'.progs[f]) == ProgWeight(p, s.progs[f])
        && !Disarms(s.progs[f], p) ==>
          Wakeups(s', p) >= Wakeups(s, p) + gain)
  }

  /** The wake-up the code creates: its own when it registers itself, the timeout callback when it
      arms its timer. */
  function OwnGain(s: Sys, t: nat, stmt: Stmt, p: Probe): nat
    requires CanRun(s, t, stmt) && Runs(s, t)
  {
    if stmt.ScheduleSelf? || stmt.Sleep? || stmt.RegisterSelf? || stmt.AddWait? then SelfGain(s, t, p)
    else if stmt.ArmTimeout? && p == TimeoutOf(CodeAt(s, t).call) then 1
    else 0
  }

  function SelfGain(s: Sys, t: nat, p: Probe): nat
    requires Runs(s, t)
  {
    TaskWeight(p, FiberTask(s.threads[t].pc.fiber))
  }

  lemma ScheduleSelfEffect(s: Sys, t: nat, thread: int, p: Probe)
    requires AtFree(s, t)
    ensures OwnEffect(s, t, DoScheduleSelf(s, t, thread), p, SelfGain(s, t, p))
  {
    var f := s.threads[t].pc.fiber;
    ProgDelta(s, f, Registered(ForQueue), p);
    PushDelta(SetProg(s, f, Registered(ForQueue)), FiberTask(f), thread, p);
  }

  lemma SleepEffect(s: Sys, t: nat, p: Probe)
    requires AtFree(s, t)
    ensures OwnEffect(s, t, DoSleep(s, t), p, SelfGain(s, t, p))
  {
    var f := s.threads[t].pc.fiber;
    ArmDelta(s, WakeFiber(f), p);
    ProgDelta(s.(timers := s.timers + [Some(WakeFiber(f))]), f, Registered(ForTimer), p);
  }

  lemma ArmTimeoutEffect(s: Sys, t: nat, wanted: bool, p: Probe)
    requires AtArm(s, t)
    ensures OwnEffect(s, t, DoArmTimeout(s, t, wanted), p,
                      if wanted && p == TimeoutOf(CodeAt(s, t).call) then 1 else 0)
  {
    var f, c := s.threads[t].pc.fiber, TimeoutCall(CodeAt(s, t).call, CodeAt(s, t).fd, CodeAt(s, t).ev);
    ArmDelta(s, c, p);
    ProgDelta(if wanted then s.(timers := s.timers + [Some(c)]) else s, f, DoArmTimeout(s, t, wanted).progs[f], p);
  }

  /** An fd operation by a fiber's code, which then moves on. */
  lemma AbsorbAndMoveOn(s: Sys, o: Outcome, f: nat, prog: Prog, p: Probe)
    requires f < |s.progs|
    ensures var s' := SetProg(Absorb(s, o), f, prog);
            && Wakeups(s', p) + ProgWeight(p, s.progs[f]) == Wakeups(Absorb(s, o), p) + ProgWeight(p, prog)
            && s'.threads == s.threads && s'.states == s.states && s'.progs == s.progs[f := prog]
  {
    ProgDelta(Absorb(s, o), f, prog, p);
  }

  /** The code registers its fiber and waits, or is refused and goes on with other code. */
  lemma RegisterEffect(s: Sys, t: nat, o: Outcome, prog: Prog, p: Probe)
    requires Runs(s, t) && !CodeAt(s, t).Waiting() && ProgWeight(p, prog) == ProgWeight(p, CodeAt(s, t)) == 0
    requires Added(s.io, o, FiberTask(s.threads[t].pc.fiber), p) && (o.Done? <==> prog.Waiting())
    ensures var s' := SetProg(Absorb(s, o), s.threads[t].pc.fiber, prog);
            OwnEffect(s, t, s', p, if o.Done? then SelfGain(s, t, p) else 0)
  {
    var f := s.threads[t].pc.fiber;
    AddCounts(s, o, FiberTask(f), p);
    AbsorbAndMoveOn(s, o, f, prog, p);
  }

  lemma RegisterSelfEffect(s: Sys, t: nat, fd: nat, ev: EventType, fault: bool, p: Probe)
    requires IoInv(s.io) && CanRun(s, t, RegisterSelf(fd, ev, fault))
    ensures OwnEffect(s, t, DoRegisterSelf(s, t, fd, ev, fault), p, 0)
         || OwnEffect(s, t, DoRegisterSelf(s, t, fd, ev, fault), p, SelfGain(s, t, p))
  {
    var f := s.threads[t].pc.fiber;
    var o := AddEvent(s.io, fd, ev, FiberTask(f), fault);
    AddIsAdded(s.io, fd, ev, FiberTask(f), fault, p);
    RegisterEffect(s, t, o, if o.Done? then Registered(ForEvent(fd, ev)) else Free, p);
  }

  lemma RegisterCbEffect(s: Sys, t: nat, fd: nat, ev: EventType, id: nat, fault: bool, p: Probe)
    requires IoInv(s.io) && CanRun(s, t, RegisterCb(fd, ev, id, fault))
    ensures OwnEffect(s, t, Absorb(s, AddEvent(s.io, fd, ev, CbTask(Client(id)), fault)), p, 0)
  {
    AddIsAdded(s.io, fd, ev, CbTask(Client(id)), fault, p);
    AddCounts(s, AddEvent(s.io, fd, ev, CbTask(Client(id)), fault), CbTask(Client(id)), p);
  }

  lemma AddWaitEffect(s: Sys, t: nat, fault: bool, p: Probe)
    requires IoInv(s.io) && CanRun(s, t, AddWait(fault))
    ensures OwnEffect(s, t, DoAddWait(s, t, fault), p, 0)
         || OwnEffect(s, t, DoAddWait(s, t, fault), p, SelfGain(s, t, p))
  {
    var f := s.threads[t].pc.fiber;
    var CallAdd(call, fd, ev, timer) := CodeAt(s, t);
    var o := AddEvent(s.io, fd, ev, FiberTask(f), fault);
    AddIsAdded(s.io, fd, ev, FiberTask(f), fault, p);
    RegisterEffect(s, t, o, if o.Done? then CallWait(call, fd, ev, timer) else CallFailed(call, timer), p);
  }

  lemma WakeSleeperEffect(s: Sys, t: nat, p: Probe)
    requires AtWakeOther(s, t)
    ensures OwnEffect(s, t, DoWakeSleeper(s, t), p, 0)
  {
    var f := s.threads[t].pc.fiber;
    ProgDelta(s, f, Free, p);
    PushDelta(SetProg(s, f, Free), FiberTask(CodeAt(s, t).fiber), ANY_THREAD, p);
  }

  lemma TimeoutFireEffect(s: Sys, t: nat, fault: bool, p: Probe)
    requires IoInv(s.io) && AtTimeoutFire(s, t)
    ensures OwnEffect(s, t, DoRunTimeoutFire(s, t, fault), p, 0)
  {
    var TimeoutFire(_, fd, ev) := CodeAt(s, t);
    var o := CancelEvent(s.io, fd, ev, fault);
    CancelCounts(s, fd, ev, fault, p);
    AbsorbAndMoveOn(s, o, s.threads[t].pc.fiber, Free, p);
  }

  /** Code that moves on without touching queue or fds, and that may disarm a timer. */
  lemma MoveOnEffect(s: Sys, t: nat, s': Sys, prog: Prog, timer: Option<nat>, p: Probe)
    requires Runs(s, t) && !CodeAt(s, t).Waiting()
    requires s'.progs == s.progs[s.threads[t].pc.fiber := prog] && s'.timers == CancelTimer(s, timer).timers
    requires s'.queue == s.queue && s'.io == s.io && s'.threads == s.threads && s'.states == s.states
    requires ProgWeight(p, prog) <= ProgWeight(p, CodeAt(s, t)) && !prog.Waiting()
    requires timer.Some? ==> timer == TimerOf(CodeAt(s, t)) && (CodeAt(s, t).CallWoken? || CodeAt(s, t).CallFailed?)
    requires p.WakeOf? ==> ProgWeight(p, prog) == ProgWeight(p, CodeAt(s, t))
    ensures OwnEffect(s, t, s', p, 0)
  {
    CancelTimerDelta(s, timer, p);
    ProgDelta(CancelTimer(s, timer), s.threads[t].pc.fiber, prog, p);
  }

  lemma CancelTimeoutEffect(s: Sys, t: nat, p: Probe)
    requires AtDisarm(s, t)
    ensures OwnEffect(s, t, DoCancelTimeout(s, t), p, 0)
  {
    match CodeAt(s, t)
    case CallWoken(call, fd, ev, timer) => MoveOnEffect(s, t, DoCancelTimeout(s, t), CallCheck(call, fd, ev), timer, p);
    case CallFailed(_, timer) => MoveOnEffect(s, t, DoCancelTimeout(s, t), Free, timer, p);
  }

  lemma BeginCallEffect(s: Sys, t: nat, fd: nat, ev: EventType, p: Probe)
    requires AtFree(s, t)
    ensures OwnEffect(s, t, DoBeginCall(s, t, fd, ev), p, 0)
  {
    MoveOnEffect(s, t, DoBeginCall(s, t, fd, ev), CallArm(|s.calls|, fd, ev), None, p);
  }

  lemma CheckTimeoutEffect(s: Sys, t: nat, p: Probe)
    requires AtCheck(s, t)
    ensures OwnEffect(s, t, DoCheckTimeout(s, t), p, 0)
  {
    var CallCheck(call, fd, ev) := CodeAt(s, t);
    var next := if CallOf(s, call).cancelled then Free else CallRetry(call, fd, ev);
    MoveOnEffect(s, t, DoCheckTimeout(s, t), next, None, p);
  }

  lemma RawAgainEffect(s: Sys, t: nat, blocks: bool, p: Probe)
    requires AtRetry(s, t)
    ensures OwnEffect(s, t, DoRawAgain(s, t, blocks), p, 0)
  {
    var CallRetry(call, fd, ev) := CodeAt(s, t);
    MoveOnEffect(s, t, DoRawAgain(s, t, blocks), if blocks then CallArm(call, fd, ev) else Free, None, p);
  }

  lemma TimeoutLockEffect(s: Sys, t: nat, p: Probe)
    requires AtTimeoutLock(s, t)
    ensures OwnEffect(s, t, DoRunTimeoutLock(s, t), p, 0)
  {
    MoveOnEffect(s, t, DoRunTimeoutLock(s, t), DoRunTimeoutLock(s, t).progs[s.threads[t].pc.fiber], None, p);
  }

  lemma TimeoutCheckEffect(s: Sys, t: nat, p: Probe)
    requires AtTimeoutCheck(s, t)
    ensures OwnEffect(s, t, DoRunTimeoutCheck(s, t), p, 0)
  {
    MoveOnEffect(s, t, DoRunTimeoutCheck(s, t), DoRunTimeoutCheck(s, t).progs[s.threads[t].pc.fiber], None, p);
  }

  lemma TimeoutSetEffect(s: Sys, t: nat, p: Probe)
    requires AtTimeoutSet(s, t)
    ensures OwnEffect(s, t, DoRunTimeoutSet(s, t), p, 0)
    ensures Wakeups(DoRunTimeoutSet(s, t), p) + ProgWeight(p, CodeAt(s, t)) <= Wakeups(s, p)
  {
    var TimeoutSet(call, fd, ev) := CodeAt(s, t);
    MoveOnEffect(s, t, DoRunTimeoutSet(s, t), TimeoutFire(call, fd, ev), None, p);
    ProgDelta(s, s.threads[t].pc.fiber, TimeoutFire(call, fd, ev), p);
  }

  lemma StmtCounts(s: Sys, t: nat, stmt: Stmt, p: Probe)
    requires IoInv(s.io) && CanRun(s, t, stmt)
    ensures Runs(s, t)
    ensures OwnEffect(s, t, DoStmt(s, t, stmt), p, 0) || OwnEffect(s, t, DoStmt(s, t, stmt), p, OwnGain(s, t, stmt, p))
  {
    match stmt
    case ScheduleSelf(thread) => ScheduleSelfEffect(s, t, thread, p);
    case RegisterSelf(fd, ev, fault) => RegisterSelfEffect(s, t, fd, ev, fault, p);
    case RegisterCb(fd, ev, id, fault) => RegisterCbEffect(s, t, fd, ev, id, fault, p);
    case Sleep => SleepEffect(s, t, p);
    case WakeSleeper => WakeSleeperEffect(s, t, p);
    case BeginCall(fd, ev) => BeginCallEffect(s, t, fd, ev, p);
    case ArmTimeout(wanted) => ArmTimeoutEffect(s, t, wanted, p);
    case AddWait(fault) => AddWaitEffect(s, t, fault, p);
    case CancelTimeout => CancelTimeoutEffect(s, t, p);
    case CheckTimeout => CheckTimeoutEffect(s, t, p);
    case RawAgain(blocks) => RawAgainEffect(s, t, blocks, p);
    case RunTimeoutLock => TimeoutLockEffect(s, t, p);
    case RunTimeoutCheck => TimeoutCheckEffect(s, t, p);
    case RunTimeoutSet => TimeoutSetEffect(s, t, p);
    case RunTimeoutFire(fault) => TimeoutFireEffect(s, t, fault, p);
  }

  /** A step whose every gain is the running fiber's own keeps the invariant. */
  lemma OwnStep(s: Sys, t: nat, s': Sys)
    requires Kept(s) && Runs(s, t)
    requires forall g: nat :: OwnEffect(s, t, s', WakeOf(g), 0) || OwnEffect(s, t, s', WakeOf(g), 1)
    ensures Kept(s')
  {
    var f := s.threads[t].pc.fiber;
    assert OwnEffect(s, t, s', WakeOf(f), 0) || OwnEffect(s, t, s', WakeOf(f), 1);
    assert ThreadOk(s, s.threads[t]);
    forall g: nat
      ensures Wakeups(s', WakeOf(g)) <= Wakeups(s, WakeOf(g)) || NewWakeup(s, s', g)
      ensures g == f ==> Wakeups(s', WakeOf(f)) == 0 || s'.progs[f].Waiting()
    {
      assert OwnEffect(s, t, s', WakeOf(g), 0) || OwnEffect(s, t, s', WakeOf(g), 1);
      assert FiberOk(s, g);
    }
    CodeStep(s, s');
  }

  /** The code is not between registering and yielding, so it has no wake-up; afterwards it has one
      only if it has just registered. */
  lemma StmtKeeps(s: Sys, t: nat, stmt: Stmt)
    requires Core(s) && CanRun(s, t, stmt)
    ensures Kept(DoStmt(s, t, stmt))
  {
    StmtCounts(s, t, stmt, WakeOf(0));
    forall g: nat
      ensures OwnEffect(s, t, DoStmt(s, t, stmt), WakeOf(g), 0) || OwnEffect(s, t, DoStmt(s, t, stmt), WakeOf(g), 1)
    {
      StmtCounts(s, t, stmt, WakeOf(g));
    }
    OwnStep(s, t, DoStmt(s, t, stmt));
  }

  /** Every step keeps it. */
  lemma StepKeepsFibers(s: Sys, a: Action)
    requires Core(s) && Can(s, a)
    ensures Kept(Do(s, a))
  {
    match a
    case Loop(t, move) => MoveKeeps(s, t, move);
    case Code(t, stmt) => StmtKeeps(s, t, stmt);
    case Outside(deed) => DeedKeeps(s, deed);
  }
}
