/** No wake-up is lost: as long as no delEvent takes a fiber out of its slot, a fiber that has
    registered itself and has not been resumed has exactly one outstanding wake-up. */
module WakeupNoLoss {
  import opened Counting
  import opened Tasks
  import opened FdEvents
  import opened FdEventProofs
  import opened Wakeup
  import opened WakeupInvariant
  import opened WakeupFibers
  import opened WakeupTasks
  import opened WakeupHistory
  import opened WakeupTheorems
  import opened WakeupSlots

  predicate ExecOrHold(st: FiberState) { st.Exec? || st.Hold? }

  /** A waiting fiber has a wake-up and is EXEC or HOLD; a call will cancel only its own timer. */
  ghost predicate Awaited(s: Sys, f: nat)
    requires f < |s.progs| == |s.states|
  {
    && (s.progs[f].Waiting() ==> Wakeups(s, WakeOf(f)) >= 1 && ExecOrHold(s.states[f]))
    && TimerIsOwn(s, s.progs[f])
  }

  ghost predicate NoLoss(s: Sys)
  {
    |s.states| == |s.progs| && forall f :: 0 <= f < |s.progs| ==> Awaited(s, f)
  }

  ghost predicate Good(s: Sys) { Inv(s) && LoopOk(s) && SlotsOk(s) && NoLoss(s) }

  /** Timers are only ever added or disarmed. */
  predicate TimersGrow(s: Sys, s': Sys)
  {
    && |s.timers| <= |s'.timers|
    && forall i :: 0 <= i < |s.timers| ==> s'.timers[i] == s.timers[i] || s'.timers[i].None?
  }

  /** A fiber whose code stays where it is remains awaited if it loses no wake-up. */
  lemma StaysAwaited(s: Sys, s': Sys, f: nat)
    requires NoLoss(s) && TimersGrow(s, s') && |s'.states| == |s'.progs|
    requires f < |s.progs| <= |s'.progs| && s'.progs[f] == s.progs[f]
    requires s.progs[f].Waiting() ==>
      Wakeups(s', WakeOf(f)) >= Wakeups(s, WakeOf(f)) && (ExecOrHold(s.states[f]) ==> ExecOrHold(s'.states[f]))
    ensures Awaited(s', f)
  {
    assert Awaited(s, f);
  }

  // ----- switching

  /** A cached fiber has left no callback unfinished. */
  lemma CachedCodeWeighsNothing(s: Sys, t: nat, p: Probe)
    requires Inv(s) && LoopOk(s) && t < |s.threads| && s.threads[t].cbFiber.Some?
    ensures s.threads[t].cbFiber.value < |s.progs| && ProgWeight(p, s.progs[s.threads[t].cbFiber.value]) == 0
  {
    var f := s.threads[t].cbFiber.value;
    assert ThreadOk(s, s.threads[t]);
    assert InCallback(s.progs[f]) ==> RunningSomewhere(s, f);
  }

  lemma SwapInFiberLosesOnlyItsOwn(s: Sys, t: nat, f: nat, p: Probe)
    requires Kept(s) && AboutToRun(s, t, f) && s.threads[t].pc.entry.task.FiberTask? && p != WakeOf(f)
    ensures Wakeups(DoSwitch(s, t), p) == Wakeups(s, p)
  {
    var th := s.threads[t];
    ThreadAndProgDelta(s, DoSwitch(s, t), t, th.(pc := Running(f, false, th.pc.entry)), f, s.progs[f].Resumed(), p);
  }

  lemma SwapInCachedLosesOnlyItsOwn(s: Sys, t: nat, f: nat, p: Probe)
    requires Inv(s) && LoopOk(s) && AboutToRun(s, t, f) && s.threads[t].pc.entry.task.CbTask? && p != WakeOf(f)
    ensures Wakeups(DoSwitch(s, t), p) == Wakeups(s, p)
  {
    var th := s.threads[t];
    var CbTask(c) := th.pc.entry.task;
    CachedCodeWeighsNothing(s, t, p);
    ThreadAndProgDelta(s, DoSwitch(s, t), t, Thread(Running(f, true, th.pc.entry), None, th.idleOver), f, ProgOf(c), p);
  }

  /** A switch to a fiber takes away that fiber's wake-up and nobody else's. */
  lemma SwapInLosesOnlyItsOwn(s: Sys, t: nat, f: nat, p: Probe)
    requires Inv(s) && LoopOk(s) && AboutToRun(s, t, f) && p != WakeOf(f)
    ensures Wakeups(DoSwitch(s, t), p) == Wakeups(s, p)
  {
    if s.threads[t].pc.entry.task.FiberTask? {
      SwapInFiberLosesOnlyItsOwn(s, t, f, p);
    } else {
      SwapInCachedLosesOnlyItsOwn(s, t, f, p);
    }
  }

  lemma SwitchNewLosesNothing(s: Sys, t: nat, p: Probe)
    requires |s.states| == |s.progs| && AtPicked(s, t) && s.threads[t].pc.entry.task.CbTask?
      && s.threads[t].cbFiber.None?
    ensures Wakeups(DoSwitch(s, t), p) == Wakeups(s, p)
  {
    var s', prog := DoSwitch(s, t), ProgOf(s.threads[t].pc.entry.task.cb);
    NewFiberDelta(s, prog, p);
    ThreadAndProgDelta(NewFiber(s, prog), s', t, s'.threads[t], |s.states|, prog, p);
  }

  lemma DropLosesOnlyTheFinished(s: Sys, t: nat, p: Probe)
    requires AtPicked(s, t) && s.threads[t].pc.entry.task.FiberTask?
    requires StateOf(s.states, s.threads[t].pc.entry.task.fiber).Finished()
      && p != WakeOf(s.threads[t].pc.entry.task.fiber)
    ensures Wakeups(DoSwitch(s, t), p) == Wakeups(s, p)
  {
    ThreadDelta(s.(active := s.active - 1), t, DoSwitch(s, t).threads[t], p);
  }

  lemma DropKeepsNoLoss(s: Sys, t: nat)
    requires Good(s) && AtPicked(s, t) && s.threads[t].pc.entry.task.FiberTask?
    requires StateOf(s.states, s.threads[t].pc.entry.task.fiber).Finished()
    ensures NoLoss(DoSwitch(s, t))
  {
    var s' := DoSwitch(s, t);
    forall g | 0 <= g < |s'.progs| ensures Awaited(s', g) {
      assert Awaited(s, g);
      if g != s.threads[t].pc.entry.task.fiber {
        DropLosesOnlyTheFinished(s, t, WakeOf(g));
      }
      StaysAwaited(s, s', g);
    }
  }

  /** The code of the fiber switched to is then past its wait. */
  lemma ResumedCode(s: Sys, t: nat, f: nat)
    requires Good(s) && AboutToRun(s, t, f)
    ensures f < |DoSwitch(s, t).progs| && !DoSwitch(s, t).progs[f].Waiting() && TimerIsOwn(s, DoSwitch(s, t).progs[f])
  {
    assert Awaited(s, f);
  }

  lemma SwapInKeepsNoLoss(s: Sys, t: nat, f: nat)
    requires Good(s) && AboutToRun(s, t, f)
    ensures NoLoss(DoSwitch(s, t))
  {
    var s' := DoSwitch(s, t);
    SwitchShape(s, t, f);
    SwapInShape(s, t);
    ResumedCode(s, t, f);
    forall g | 0 <= g < |s'.progs| ensures Awaited(s', g) {
      if g != f {
        SwapInLosesOnlyItsOwn(s, t, f, WakeOf(g));
        StaysAwaited(s, s', g);
      }
    }
  }

  lemma SwapInNewShape(s: Sys, t: nat)
    requires |s.states| == |s.progs| && AtPicked(s, t) && s.threads[t].pc.entry.task.CbTask?
      && s.threads[t].cbFiber.None?
    ensures var s' := DoSwitch(s, t);
            && s'.states == s.states + [Exec] && s'.timers == s.timers
            && s'.progs == s.progs + [ProgOf(s.threads[t].pc.entry.task.cb)]
  {
  }

  lemma SwapInNewKeepsNoLoss(s: Sys, t: nat)
    requires Good(s) && AtPicked(s, t) && s.threads[t].pc.entry.task.CbTask? && s.threads[t].cbFiber.None?
    ensures NoLoss(DoSwitch(s, t))
  {
    var s' := DoSwitch(s, t);
    SwapInNewShape(s, t);
    forall g | 0 <= g < |s'.progs| ensures Awaited(s', g) {
      if g < |s.progs| {
        SwitchNewLosesNothing(s, t, WakeOf(g));
        StaysAwaited(s, s', g);
      }
    }
  }

  lemma SwitchKeepsNoLoss(s: Sys, t: nat)
    requires Good(s) && AtPicked(s, t)
    ensures NoLoss(DoSwitch(s, t))
  {
    var th := s.threads[t];
    match th.pc.entry.task
    case FiberTask(f) =>
      ThreadsBound(s, t, WakeOf(f));
      assert FiberOk(s, f);
      if StateOf(s.states, f).Finished() {
        DropKeepsNoLoss(s, t);
      } else {
        SwapInKeepsNoLoss(s, t, f);
      }
    case CbTask(_) =>
      if th.cbFiber.None? {
        SwapInNewKeepsNoLoss(s, t);
      } else {
        assert ThreadOk(s, th);
        SwapInKeepsNoLoss(s, t, th.cbFiber.value);
      }
  }

  // ----- the other steps of scheduler threads

  lemma ScanLosesNothing(s: Sys, t: nat, p: Probe)
    requires AtScan(s, t)
    ensures Wakeups(DoScan(s, t), p) == Wakeups(s, p)
  {
    var s', i := DoScan(s, t), FirstEligible(s.queue, t, s.states);
    var s1 := if i < |s.queue| then s.(queue := Without(s.queue, i), active := s.active + 1) else s;
    ThreadDelta(s1, t, s'.threads[t], p);
    if i < |s.queue| {
      DequeueDelta(s, i, p);
    } else {
      assert s'.threads[t].pc.Idle? ==> Sum(s'.threads[t].pc.cbs, OfClosure(p)) == 0;
    }
  }

  /** Moves that change only where the thread is, and no fewer wake-ups with it. */
  lemma ThreadKeepsWakeups(s: Sys, s': Sys, t: nat, p: Probe)
    requires t < |s.threads| == |s'.threads| && s'.threads == s.threads[t := s'.threads[t]]
    requires s'.queue == s.queue && s'.io == s.io && s'.timers == s.timers && s'.progs == s.progs
    requires ThreadWeight(p, s'.threads[t]) >= ThreadWeight(p, s.threads[t])
    ensures Wakeups(s', p) >= Wakeups(s, p)
  {
    ThreadDelta(s, t, s'.threads[t], p);
  }

  lemma SettleLosesNoTimeout(s: Sys, t: nat, c: nat)
    requires AtCounted(s, t)
    ensures Wakeups(DoSettle(s, t), TimeoutOf(c)) >= Wakeups(s, TimeoutOf(c))
  {
    var s', f := DoSettle(s, t), s.threads[t].pc.fiber;
    var s1 := SetThread(s, t, s'.threads[t]);
    ThreadDelta(s, t, s'.threads[t], TimeoutOf(c));
    assert s'.threads == s1.threads;
    if StateOf(s.states, f).Ready? {
      PushDelta(s1, FiberTask(f), ANY_THREAD, TimeoutOf(c));
    }
  }

  lemma MoveLosesNothing(s: Sys, t: nat, move: Move, p: Probe)
    requires Inv(s) && LoopOk(s) && CanMove(s, t, move) && !move.Switch?
    ensures Wakeups(DoMove(s, t, move), p) >= Wakeups(s, p)
  {
    if move.Scan? {
      ScanLosesNothing(s, t, p);
    } else if move.Settle? {
      if p.WakeOf? {
        SettleCounts(s, t, p.fiber);
      } else {
        SettleLosesNoTimeout(s, t, p.call);
      }
    } else if move.Expire? {
      ExpireCounts(s, t, move.timer, move.recurring, p);
    } else if move.Flush? {
      FlushCounts(s, t, p);
    } else {
      ThreadKeepsWakeups(s, DoMove(s, t, move), t, p);
    }
  }

  /** No awaited fiber becomes READY or finishes. */
  lemma MoveLeavesOnlyFree(s: Sys, t: nat, move: Move, f: nat)
    requires f < |s.progs| == |s.states| && CanMove(s, t, move) && !move.Switch? && Awaited(s, f)
    ensures var s' := DoMove(s, t, move);
            && f < |s'.states| && TimersGrow(s, s')
            && (s.progs[f].Waiting() && ExecOrHold(s.states[f]) ==> ExecOrHold(s'.states[f]))
  {
  }

  lemma MoveKeepsNoLoss(s: Sys, t: nat, move: Move)
    requires Good(s) && CanMove(s, t, move)
    ensures NoLoss(DoMove(s, t, move))
  {
    if move.Switch? {
      SwitchKeepsNoLoss(s, t);
    } else {
      var s' := DoMove(s, t, move);
      MoveShape(s, t, move);
      forall f | 0 <= f < |s'.progs| ensures Awaited(s', f) {
        assert Awaited(s, f);
        MoveLosesNothing(s, t, move, WakeOf(f));
        MoveLeavesOnlyFree(s, t, move, f);
        StaysAwaited(s, s', f);
      }
    }
  }

  // ----- the fibers' own code

  lemma CancelTimeoutTimers(s: Sys, t: nat)
    requires AtDisarm(s, t)
    ensures var s', f := DoCancelTimeout(s, t), s.threads[t].pc.fiber;
            TimersGrow(s, s') && f < |s'.progs| && TimerOf(s'.progs[f]).None?
  {
    match CodeAt(s, t)
    case CallWoken(_, _, _, _) =>
    case CallFailed(_, _) =>
  }

  lemma AddWaitTimers(s: Sys, t: nat, fault: bool)
    requires AtAdd(s, t)
    ensures var s', f := DoAddWait(s, t, fault), s.threads[t].pc.fiber;
            && s'.timers == s.timers && f < |s'.progs| && TimerOf(s'.progs[f]) == TimerOf(s.progs[f])
            && (s'.progs[f].CallWait? || s'.progs[f].CallFailed?) && s'.progs[f].call == s.progs[f].call
  {
    AbsorbTimers(s, AddEvent(s.io, CodeAt(s, t).fd, CodeAt(s, t).ev, FiberTask(s.threads[t].pc.fiber), fault));
  }

  lemma AbsorbTimers(s: Sys, o: Outcome)
    ensures Absorb(s, o).timers == s.timers && Absorb(s, o).progs == s.progs
  {
  }

  lemma FdStmtTimers(s: Sys, t: nat, stmt: Stmt)
    requires CanRun(s, t, stmt) && UsesFds(stmt) && !stmt.AddWait?
    ensures var s', f := DoStmt(s, t, stmt), s.threads[t].pc.fiber;
            s'.timers == s.timers && f < |s'.progs| && TimerOf(s'.progs[f]).None?
  {
    var f := s.threads[t].pc.fiber;
    match stmt
    case RegisterSelf(fd, ev, fault) => AbsorbTimers(s, AddEvent(s.io, fd, ev, FiberTask(f), fault));
    case RegisterCb(fd, ev, id, fault) => AbsorbTimers(s, AddEvent(s.io, fd, ev, CbTask(Client(id)), fault));
    case RunTimeoutFire(fault) => AbsorbTimers(s, CancelEvent(s.io, CodeAt(s, t).fd, CodeAt(s, t).ev, fault));
  }

  /** A call's timer is the one it has just armed, or as before. */
  lemma StmtTimers(s: Sys, t: nat, stmt: Stmt)
    requires CanRun(s, t, stmt) && Runs(s, t) && TimerIsOwn(s, CodeAt(s, t))
    ensures var s', f := DoStmt(s, t, stmt), s.threads[t].pc.fiber;
            TimersGrow(s, s') && f < |s'.progs| && TimerIsOwn(s', s'.progs[f])
  {
    if stmt.AddWait? {
      AddWaitTimers(s, t, stmt.fault);
    } else if UsesFds(stmt) {
      FdStmtTimers(s, t, stmt);
    } else if stmt.CancelTimeout? {
      CancelTimeoutTimers(s, t);
    }
  }

  lemma StmtKeepsNoLoss(s: Sys, t: nat, stmt: Stmt)
    requires Good(s) && CanRun(s, t, stmt)
    ensures NoLoss(DoStmt(s, t, stmt))
  {
    var s' := DoStmt(s, t, stmt);
    StmtCounts(s, t, stmt, WakeOf(0));
    var f := s.threads[t].pc.fiber;
    assert Awaited(s, f) && ThreadOk(s, s.threads[t]);
    StmtTimers(s, t, stmt);
    forall g | 0 <= g < |s'.progs| ensures Awaited(s', g) {
      StmtCounts(s, t, stmt, WakeOf(g));
      if g != f {
        StaysAwaited(s, s', g);
      }
    }
  }

  // ----- steps from outside

  lemma DeedKeepsNoLoss(s: Sys, deed: Deed)
    requires Good(s) && CanHappen(s, deed) && !deed.DropEvent?
    ensures NoLoss(DoDeed(s, deed))
  {
    var s' := DoDeed(s, deed);
    DeedShape(s, deed);
    forall g | 0 <= g < |s'.progs| ensures Awaited(s', g) {
      if g < |s.progs| {
        DeedCounts(s, deed, WakeOf(g));
        StaysAwaited(s, s', g);
      }
    }
  }

  /** A delEvent that is refused, or that unregisters a callback, takes nobody's wake-up. */
  predicate Harmless(s: Sys, a: Action)
  {
    Drops(a) ==>
        a.deed.fault || !RegisteredAt(s.io, a.deed.fd, a.deed.ev) || s.io.fds[a.deed.fd].Get(a.deed.ev).fiber.None?
  }

  lemma HarmlessDropCounts(s: Sys, fd: nat, ev: EventType, fault: bool, g: nat)
    requires IoInv(s.io) && SlotsOk(s) && Harmless(s, Outside(DropEvent(fd, ev, fault)))
    ensures Wakeups(DoDeed(s, DropEvent(fd, ev, fault)), WakeOf(g)) == Wakeups(s, WakeOf(g))
  {
    DropCounts(s, fd, ev, fault, WakeOf(g));
    if DelEvent(s.io, fd, ev, fault).Done? {
      assert SlotOk(s.progs, s.io.fds[fd].Get(ev), fd, ev);
    }
  }

  lemma HarmlessDropKeepsNoLoss(s: Sys, fd: nat, ev: EventType, fault: bool)
    requires Good(s) && Harmless(s, Outside(DropEvent(fd, ev, fault)))
    ensures NoLoss(DoDeed(s, DropEvent(fd, ev, fault)))
  {
    var s' := DoDeed(s, DropEvent(fd, ev, fault));
    DeedShape(s, DropEvent(fd, ev, fault));
    forall g | 0 <= g < |s'.progs| ensures Awaited(s', g) {
      HarmlessDropCounts(s, fd, ev, fault, g);
      StaysAwaited(s, s', g);
    }
  }

  /** Otherwise it leaves the fiber it unregisters without a wake-up... */
  lemma UnregisteredSlot(s: Sys, fd: nat, ev: EventType, f: nat)
    requires IoInv(s.io) && FibersOk(s) && RegisteredAt(s.io, fd, ev) && s.io.fds[fd].Get(ev).fiber == Some(f)
    ensures Wakeups(Absorb(s, DelEvent(s.io, fd, ev, false)), WakeOf(f)) == 0
  {
    assert FdArmed(s.io.fds[fd]) && SlotWeight(WakeOf(f), s.io.fds[fd].Get(ev)) == 1;
    DelEventIsLegal(s.io, fd, ev);
    DropCounts(s, fd, ev, false, WakeOf(f));
    assert FiberOk(s, f);
  }

  lemma DelEventIsLegal(io: Io, fd: nat, ev: EventType)
    requires IoInv(io) && RegisteredAt(io, fd, ev)
    ensures DelEvent(io, fd, ev, false).Done?
  {
    DelEventKeeps(io, fd, ev, false);
  }

  lemma DropIsAbsorb(s: Sys, fd: nat, ev: EventType, fault: bool)
    ensures DoDeed(s, DropEvent(fd, ev, fault)) == Absorb(s, DelEvent(s.io, fd, ev, fault))
  {
  }

  lemma DelEventLosesTheWakeup(s: Sys, fd: nat, ev: EventType, f: nat)
    requires Reachable(s) && RegisteredAt(s.io, fd, ev) && s.io.fds[fd].Get(ev).fiber == Some(f)
    ensures Wakeups(DoDeed(s, DropEvent(fd, ev, false)), WakeOf(f)) == 0
  {
    ReachableParts(s);
    DropIsAbsorb(s, fd, ev, false);
    UnregisteredSlot(s, fd, ev, f);
  }

  /** ...though its code is waiting. */
  lemma HarmfulDropLoses(s: Sys, a: Action)
    requires Good(s) && Can(s, a) && !Harmless(s, a)
    ensures !NoLoss(Do(s, a))
  {
    var DropEvent(fd, ev, _) := a.deed;
    var f := s.io.fds[fd].Get(ev).fiber.value;
    assert SlotOk(s.progs, s.io.fds[fd].Get(ev), fd, ev);
    UnregisteredSlot(s, fd, ev, f);
    DeedShape(s, a.deed);
    assert NoLoss(Do(s, a)) ==> Awaited(Do(s, a), f);
  }

  // ----- whole runs

  /** A step loses no wake-up if and only if it is not a delEvent that takes a fiber out of its slot. */
  lemma StepKeepsNoLoss(s: Sys, a: Action)
    requires Good(s) && Can(s, a)
    ensures NoLoss(Do(s, a)) <==> Harmless(s, a)
  {
    if !Harmless(s, a) {
      HarmfulDropLoses(s, a);
    } else if Drops(a) {
      HarmlessDropKeepsNoLoss(s, a.deed.fd, a.deed.ev, a.deed.fault);
    } else {
      OtherStepKeepsNoLoss(s, a);
    }
  }

  lemma OtherStepKeepsNoLoss(s: Sys, a: Action)
    requires Good(s) && Can(s, a) && !Drops(a)
    ensures NoLoss(Do(s, a))
  {
    match a
    case Loop(t, move) => MoveKeepsNoLoss(s, t, move);
    case Code(t, stmt) => StmtKeepsNoLoss(s, t, stmt);
    case Outside(deed) => DeedKeepsNoLoss(s, deed);
  }

  predicate HarmlessRun(s: Sys, run: seq<Action>)
    requires ValidRun(s, run)
    decreases |run|
  {
    run == [] || (Harmless(s, run[0]) && HarmlessRun(Do(s, run[0]), run[1..]))
  }

  lemma {:induction false} RunKeepsNoLoss(s: Sys, run: seq<Action>)
    requires Good(s) && ValidRun(s, run) && HarmlessRun(s, run)
    ensures Good(After(s, run))
    decreases |run|
  {
    if run != [] {
      StepKeepsInv(s, run[0]);
      StepKeepsLoopOk(s, run[0]);
      StepKeepsSlotsOk(s, run[0]);
      StepKeepsNoLoss(s, run[0]);
      RunKeepsNoLoss(Do(s, run[0]), run[1..]);
    }
  }

  lemma InitialGood(n: nat)
    ensures Good(InitialSys(n))
  {
    InitialInv(n);
    InitialSlotsOk(n);
  }

  /** Reached without a delEvent that takes a fiber out of its slot. */
  ghost predicate HarmlesslyReachable(s: Sys)
  {
    exists n: nat, run: seq<Action> ::
      ValidRun(InitialSys(n), run) && HarmlessRun(InitialSys(n), run) && After(InitialSys(n), run) == s
  }

  lemma HarmlesslyGood(s: Sys)
    requires HarmlesslyReachable(s)
    ensures Good(s) && Reachable(s)
  {
    var n: nat, run :|
      ValidRun(InitialSys(n), run) && HarmlessRun(InitialSys(n), run) && After(InitialSys(n), run) == s;
    InitialGood(n);
    RunKeepsNoLoss(InitialSys(n), run);
  }

  /** In every such state a fiber that has registered itself in an fd slot, a timer or the queue, and
      has not been resumed, has exactly one outstanding wake-up. */
  lemma NoLostWakeup(s: Sys, f: nat)
    requires HarmlesslyReachable(s) && f < |s.progs| && s.progs[f].Waiting()
    ensures Wakeups(s, WakeOf(f)) == 1
  {
    HarmlesslyGood(s);
    assert Awaited(s, f) && FiberOk(s, f);
  }
}
