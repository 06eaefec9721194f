/** When a waiting call has lost its timeout: exactly when a callback has marked it and ended before the call
    registered its event. */
module WakeupGuards {
  import opened Counting
  import opened Tasks
  import opened FdEvents
  import opened FdEventProofs
  import opened Wakeup
  import opened WakeupInvariant
  import opened WakeupFibers
  import opened WakeupTasks
  import opened WakeupHistory
  import opened WakeupTheorems
  import opened WakeupSlots
  import opened WakeupNoLoss
  import opened WakeupOutcomes
  import opened WakeupTimers
  import opened WakeupTimeouts
  import opened WakeupClosures

  /** A callback that has found call `c` unmarked and is going to cancel its event, whatever happens. */
  predicate Committed(prog: Prog, c: nat) { (prog.TimeoutSet? || prog.TimeoutFire?) && prog.call == c }

  ghost predicate Firing(s: Sys, c: nat) { exists g :: 0 <= g < |s.progs| && Committed(s.progs[g], c) }

  /** Something is left to time call `c` out: a committed callback, or, the call being unmarked, an armed timer or
      a callback on its way. */
  ghost predicate Guarded(s: Sys, c: nat)
  {
    Firing(s, c) || (TimerRan(c) !in s.log && Wakeups(s, TimeoutOf(c)) >= 1)
  }

  /** A callback has marked the call and has ended, and no other one is committed. */
  ghost predicate Lost(s: Sys, c: nat) { TimerRan(c) in s.log && !Firing(s, c) }

  /** In every reachable state a call with a timer is guarded, unless it is lost. */
  lemma GuardedExactly(s: Sys, f: nat, c: nat)
    requires Reachable(s) && f < |s.progs| && Timed(s.progs[f], c)
    ensures Guarded(s, c) <==> !Lost(s, c)
  {
    ReachableWhole(s);
    assert Coming(s, c);
  }

  /** In the first round, that is before a second timer is armed, it is lost exactly if its timer is gone, no
      callback is on its way and none is committed. */
  lemma FirstRoundLostExactly(s: Sys, f: nat, c: nat)
    requires Reachable(s) && f < |s.progs| && Timed(s.progs[f], c) && Sum(s.log, ArmedFor(c)) == 1
    ensures Lost(s, c) <==> Wakeups(s, TimeoutOf(c)) == 0 && !Firing(s, c)
  {
    ReachableWhole(s);
    assert Coming(s, c) && CallOk(s, c);
    if TimerRan(c) in s.log {
      var i :| 0 <= i < |s.log| && s.log[i] == TimerRan(c);
      SumAt(s.log, i, RanFor(c));
    }
  }

  // ----- lost for ever

  /** The step is the cancelEvent of a callback of call `c`. */
  predicate Fires(s: Sys, a: Action, c: nat)
  {
    a.Code? && a.stmt.RunTimeoutFire? && AtTimeoutFire(s, a.t) && CodeAt(s, a.t).call == c
  }

  lemma LogStays(s: Sys, a: Action)
    requires Can(s, a)
    ensures s.log <= Do(s, a).log
  {
    match a
    case Loop(t, move) => MoveQuiet(s, t, move);
    case Code(t, stmt) => StmtAppends(s, t, stmt);
    case Outside(deed) => DeedQuiet(s, deed);
  }

  lemma SwitchCommitsNone(s: Sys, t: nat, c: nat)
    requires |s.states| == |s.progs| && AtPicked(s, t)
    ensures var s' := DoSwitch(s, t);
            forall g :: 0 <= g < |s'.progs| && Committed(s'.progs[g], c) ==> g < |s.progs| && s'.progs[g] == s.progs[g]
  {
    match s.threads[t].pc.entry.task
    case FiberTask(_) =>
    case CbTask(_) =>
      match s.threads[t].cbFiber
      case Some(_) =>
      case None =>
  }

  /** Only a check that finds the call unmarked commits a callback. */
  lemma StmtCommits(s: Sys, t: nat, stmt: Stmt, c: nat)
    requires CanRun(s, t, stmt) && Runs(s, t)
    ensures var s', f := DoStmt(s, t, stmt), s.threads[t].pc.fiber;
            && f < |s'.progs|
            && (Committed(s'.progs[f], c) && !Committed(s.progs[f], c) ==>
                  stmt.RunTimeoutCheck? && !CallOf(s, c).cancelled)
            && (Committed(s.progs[f], c) && !Committed(s'.progs[f], c) ==> Fires(s, Code(t, stmt), c))
  {
    if stmt.CancelTimeout? {
      match CodeAt(s, t)
      case CallWoken(_, _, _, _) =>
      case CallFailed(_, _) =>
    } else if UsesFds(stmt) {
      FdStmtCommits(s, t, stmt, c);
    }
  }

  lemma FdStmtCommits(s: Sys, t: nat, stmt: Stmt, c: nat)
    requires CanRun(s, t, stmt) && UsesFds(stmt)
    ensures var s', f := DoStmt(s, t, stmt), s.threads[t].pc.fiber;
            && f < |s'.progs| && !Committed(s'.progs[f], c)
            && (Committed(s.progs[f], c) ==> Fires(s, Code(t, stmt), c))
  {
  }

  /** A callback committed after the step was committed before it, or the call was not marked. */
  lemma StepCommits(s: Sys, a: Action, c: nat)
    requires Whole(s) && Can(s, a)
    ensures Firing(Do(s, a), c) ==> Firing(s, c) || !CallOf(s, c).cancelled
  {
    var s' := Do(s, a);
    if Firing(s', c) {
      var g :| 0 <= g < |s'.progs| && Committed(s'.progs[g], c);
      match a
      case Loop(t, move) =>
        if move.Switch? {
          SwitchCommitsNone(s, t, c);
        } else {
          MoveShape(s, t, move);
        }
      case Outside(deed) => DeedShape(s, deed);
      case Code(t, stmt) =>
        StmtCounts(s, t, stmt, TimeoutOf(0));
        StmtCommits(s, t, stmt, c);
    }
  }

  /** A lost call stays lost, and no callback of it fires. */
  lemma LostStays(s: Sys, a: Action, c: nat)
    requires Whole(s) && Can(s, a) && Lost(s, c)
    ensures Lost(Do(s, a), c) && !Fires(s, a, c)
  {
    LogStays(s, a);
    StepCommits(s, a, c);
    assert CallOk(s, c);
    MarkIsExact(s, c);
    if Fires(s, a, c) {
      assert Committed(s.progs[s.threads[a.t].pc.fiber], c);
    }
  }

  /** No step of the run is the cancelEvent of a callback of call `c`. */
  ghost predicate NeverFires(s: Sys, run: seq<Action>, c: nat)
    requires ValidRun(s, run)
    decreases |run|
  {
    run == [] || (!Fires(s, run[0], c) && NeverFires(Do(s, run[0]), run[1..], c))
  }

  lemma StepKeepsWhole(s: Sys, a: Action)
    requires Whole(s) && Can(s, a)
    ensures Whole(Do(s, a))
  {
    StepKeepsInv(s, a);
    StepKeepsLoopOk(s, a);
    StepKeepsSlotsOk(s, a);
    StepKeepsTimely(s, a);
    StepKeepsTimed(s, a);
  }

  lemma {:induction false} RunStaysLost(s: Sys, run: seq<Action>, c: nat)
    requires Whole(s) && ValidRun(s, run) && Lost(s, c)
    ensures NeverFires(s, run, c) && Lost(After(s, run), c)
    decreases |run|
  {
    if run != [] {
      LostStays(s, run[0], c);
      StepKeepsWhole(s, run[0]);
      RunStaysLost(Do(s, run[0]), run[1..], c);
    }
  }

  /** Once lost, lost for ever: in every continuation no callback of the call cancels its event. */
  lemma LostForEver(s: Sys, run: seq<Action>, c: nat)
    requires Reachable(s) && Lost(s, c) && ValidRun(s, run)
    ensures NeverFires(s, run, c) && Lost(After(s, run), c)
  {
    ReachableWhole(s);
    RunStaysLost(s, run, c);
  }

  // ----- a callback that fires after addEvent wakes its call

  /** After the cancelEvent of a callback, unless the kernel refuses it, the call's fiber is in no slot. */
  lemma FireTakesOut(s: Sys, t: nat, f: nat)
    requires Inv(s) && SlotsOk(s) && ClosuresOk(s) && AtTimeoutFire(s, t)
    requires f < |s.progs| && s.progs[f].CallWait? && s.progs[f].call == CodeAt(s, t).call
    ensures !InSlot(DoRunTimeoutFire(s, t, false), f)
  {
    var s' := DoRunTimeoutFire(s, t, false);
    assert CodeOk(s, CodeAt(s, t)) && CodeOk(s, s.progs[f]);
    StmtKeepsSlotsOk(s, t, RunTimeoutFire(false));
    NotRegisteredAfter(s, t);
    StillWaits(s, t, f);
    OutOfSlots(s', f);
  }

  /** A call whose event is not registered has its fiber in no slot. */
  lemma OutOfSlots(s: Sys, f: nat)
    requires SlotsOk(s) && f < |s.progs| && s.progs[f].CallWait? && !RegisteredAt(s.io, s.progs[f].fd, s.progs[f].ev)
    ensures !InSlot(s, f)
  {
    forall fd: nat, ev | RegisteredAt(s.io, fd, ev) ensures s.io.fds[fd].Get(ev).fiber != Some(f) {
      assert SlotOk(s.progs, s.io.fds[fd].Get(ev), fd, ev);
    }
  }

  lemma NotRegisteredAfter(s: Sys, t: nat)
    requires IoInv(s.io) && AtTimeoutFire(s, t)
    ensures !RegisteredAt(DoRunTimeoutFire(s, t, false).io, CodeAt(s, t).fd, CodeAt(s, t).ev)
  {
    if RegisteredAt(s.io, CodeAt(s, t).fd, CodeAt(s, t).ev) {
      CancelQueues(s, CodeAt(s, t).fd, CodeAt(s, t).ev);
    }
  }

  /** So it is queued, or dequeued and about to be resumed: the timed-out call's own fiber is woken. */
  lemma TimeoutWakesItsCall(s: Sys, t: nat, f: nat)
    requires HarmlesslyReachable(s) && AtTimeoutFire(s, t)
    requires f < |s.progs| && s.progs[f].CallWait? && s.progs[f].call == CodeAt(s, t).call
    ensures var s' := DoRunTimeoutFire(s, t, false);
            !InSlot(s', f) && (IsQueued(s', f) || IsPicked(s', f))
  {
    var s', a := DoRunTimeoutFire(s, t, false), Code(t, RunTimeoutFire(false));
    HarmlesslyGood(s);
    ReachableClosures(s);
    FireTakesOut(s, t, f);
    StepKeepsGood(s, a);
    StepKeepsClosures(s, a);
    StillWaits(s, t, f);
    CallWaitsSomewhere(s', f);
  }

  lemma StepKeepsGood(s: Sys, a: Action)
    requires Good(s) && Can(s, a) && Harmless(s, a)
    ensures Good(Do(s, a))
  {
    StepKeepsInv(s, a);
    StepKeepsLoopOk(s, a);
    StepKeepsSlotsOk(s, a);
    StepKeepsNoLoss(s, a);
  }

  lemma StillWaits(s: Sys, t: nat, f: nat)
    requires IoInv(s.io) && AtTimeoutFire(s, t) && f < |s.progs| && s.progs[f].CallWait?
    ensures f < |DoRunTimeoutFire(s, t, false).progs| && DoRunTimeoutFire(s, t, false).progs[f] == s.progs[f]
  {
    TimeoutFireEffect(s, t, false, TimeoutOf(0));
  }

  // ----- between addEvent and the wake-up

  /** The fiber waits in its slot, in call `c`, with a timer. */
  ghost predicate WaitsInSlot(s: Sys, f: nat, c: nat)
  {
    f < |s.progs| && s.progs[f].CallWait? && Timed(s.progs[f], c) && InSlot(s, f)
  }

  lemma AddWaitCounts(s: Sys, t: nat, fault: bool, c: nat)
    requires IoInv(s.io) && CanRun(s, t, AddWait(fault)) && TimerIsOwn(s, CodeAt(s, t))
    ensures Wakeups(DoAddWait(s, t, fault), TimeoutOf(c)) == Wakeups(s, TimeoutOf(c))
  {
    AddWaitEffect(s, t, fault, TimeoutOf(c));
    FdStmtWeight(s, t, AddWait(fault), c);
  }

  lemma AddWaitFiring(s: Sys, t: nat, fault: bool, c: nat)
    requires IoInv(s.io) && CanRun(s, t, AddWait(fault))
    ensures Firing(DoAddWait(s, t, fault), c) <==> Firing(s, c)
  {
    AddWaitEffect(s, t, fault, TimeoutOf(0));
    FdStmtCommits(s, t, AddWait(fault), c);
    SameFiring(s, DoAddWait(s, t, fault), s.threads[t].pc.fiber, c);
  }

  /** addEvent decides nothing: the call that then waits is lost if and only if it was. */
  lemma AddWaitDecidesNothing(s: Sys, t: nat, fault: bool)
    requires Reachable(s) && CanRun(s, t, AddWait(fault)) && TimerOf(CodeAt(s, t)).Some?
    ensures var s', c := DoAddWait(s, t, fault), CodeAt(s, t).call;
            (Lost(s', c) <==> Lost(s, c)) && (Guarded(s', c) <==> Guarded(s, c))
  {
    ReachableWhole(s);
    assert TimerIsOwn(s, CodeAt(s, t));
    AddKeepsLog(s, t, fault);
    AddWaitCounts(s, t, fault, CodeAt(s, t).call);
    AddWaitFiring(s, t, fault, CodeAt(s, t).call);
  }

  lemma AddKeepsLog(s: Sys, t: nat, fault: bool)
    requires IoInv(s.io) && CanRun(s, t, AddWait(fault))
    ensures DoAddWait(s, t, fault).log == s.log
  {
    AddEventKeeps(s.io, CodeAt(s, t).fd, CodeAt(s, t).ev, FiberTask(s.threads[t].pc.fiber), fault);
  }

  lemma SameFiring(s: Sys, s': Sys, f: nat, c: nat)
    requires f < |s.progs| == |s'.progs| && !Committed(s.progs[f], c) && !Committed(s'.progs[f], c)
    requires forall g :: 0 <= g < |s.progs| && g != f ==> s'.progs[g] == s.progs[g]
    ensures Firing(s', c) <==> Firing(s, c)
  {
    if Firing(s, c) {
      var g :| 0 <= g < |s.progs| && Committed(s.progs[g], c);
      assert Committed(s'.progs[g], c);
    }
    if Firing(s', c) {
      var g :| 0 <= g < |s'.progs| && Committed(s'.progs[g], c);
      assert Committed(s.progs[g], c);
    }
  }

  /** The cancelEvent of a callback of call `c`, refused by the kernel. */
  predicate FireFails(s: Sys, a: Action, c: nat) { Fires(s, a, c) && a.stmt.fault }

  /** A call that is marked by a step has a callback committed after it. */
  lemma MarkingCommits(s: Sys, a: Action, c: nat)
    requires Inv(s) && Can(s, a) && TimerRan(c) !in s.log && TimerRan(c) in Do(s, a).log
    ensures Firing(Do(s, a), c)
  {
    var s' := Do(s, a);
    if !(a.Code? && ForTimeouts(a.stmt)) {
      StepQuiet(s, a);
      QuietMarksNothing(s, s', c);
    } else {
      MarkedBySet(s, a.t, a.stmt, c);
    }
  }

  lemma QuietMarksNothing(s: Sys, s': Sys, c: nat)
    requires QuietForCalls(s, s') && TimerRan(c) !in s.log
    ensures TimerRan(c) !in s'.log
  {
    forall i | 0 <= i < |s'.log| ensures s'.log[i] != TimerRan(c) {
      assert i < |s.log| ==> s.log[i] == s'.log[i];
    }
  }

  lemma MarkedBySet(s: Sys, t: nat, stmt: Stmt, c: nat)
    requires CanRun(s, t, stmt) && ForTimeouts(stmt) && TimerRan(c) !in s.log && TimerRan(c) in DoStmt(s, t, stmt).log
    ensures Firing(DoStmt(s, t, stmt), c)
  {
    var s', f := DoStmt(s, t, stmt), s.threads[t].pc.fiber;
    match stmt
    case ArmTimeout(_) =>
    case CheckTimeout =>
    case RunTimeoutSet => assert Committed(s'.progs[f], c);
  }

  lemma StmtKeepsCommitted(s: Sys, t: nat, stmt: Stmt, g: nat, c: nat)
    requires IoInv(s.io) && CanRun(s, t, stmt) && g < |s.progs| && Committed(s.progs[g], c)
      && !Fires(s, Code(t, stmt), c)
    ensures g < |DoStmt(s, t, stmt).progs| && Committed(DoStmt(s, t, stmt).progs[g], c)
  {
    StmtCounts(s, t, stmt, TimeoutOf(0));
    StmtCommits(s, t, stmt, c);
  }

  lemma MoveKeepsCommitted(s: Sys, t: nat, move: Move, g: nat, c: nat)
    requires Inv(s) && LoopOk(s) && CanMove(s, t, move) && g < |s.progs| && Committed(s.progs[g], c)
    ensures g < |DoMove(s, t, move).progs| && Committed(DoMove(s, t, move).progs[g], c)
  {
    if move.Switch? {
      SwitchKeepsCommitted(s, t, g, c);
    } else {
      MoveShape(s, t, move);
    }
  }

  /** A committed callback stays committed until it fires. */
  lemma CommittedUntilItFires(s: Sys, a: Action, c: nat)
    requires Whole(s) && Can(s, a) && Firing(s, c) && !Fires(s, a, c)
    ensures Firing(Do(s, a), c)
  {
    var g :| 0 <= g < |s.progs| && Committed(s.progs[g], c);
    match a {
      case Loop(t, move) => MoveKeepsCommitted(s, t, move, g, c);
      case Outside(deed) => DeedShape(s, deed);
      case Code(t, stmt) => StmtKeepsCommitted(s, t, stmt, g, c);
    }
    assert Committed(Do(s, a).progs[g], c);
  }

  /** A committed callback is running, so it is not what a thread switches to. */
  lemma SwitchKeepsCommitted(s: Sys, t: nat, g: nat, c: nat)
    requires Inv(s) && LoopOk(s) && AtPicked(s, t) && g < |s.progs| && Committed(s.progs[g], c)
    ensures g < |DoSwitch(s, t).progs| && DoSwitch(s, t).progs[g] == s.progs[g]
  {
    SwitchedCode(s, t);
    assert RunningSomewhere(s, g);
    var u :| 0 <= u < |s.threads| && RunsFiber(s.threads[u], g);
    RunningIsNotSwitchedTo(s, t, u, g);
  }

  lemma RunningIsNotSwitchedTo(s: Sys, t: nat, u: nat, g: nat)
    requires Inv(s) && AtPicked(s, t) && u < |s.threads| && RunsFiber(s.threads[u], g)
    ensures !RunsFiber(DoSwitch(s, t).threads[t], g)
  {
    StepKeepsFibers(s, Loop(t, Switch));
    SwitchedCode(s, t);
    var s' := DoSwitch(s, t);
    if RunsFiber(s'.threads[t], g) {
      assert FiberOk(s', g);
      OnlyOneExecutor(s', g, t, u);
      assert false;
    }
  }

  /** A guarded call that waits in its slot stays guarded while it does, unless the kernel refuses a callback's
      cancelEvent. */
  lemma GuardedStays(s: Sys, a: Action, f: nat, c: nat)
    requires Whole(s) && ClosuresOk(s) && Can(s, a) && WaitsInSlot(s, f, c) && Guarded(s, c)
    requires WaitsInSlot(Do(s, a), f, c)
    ensures Guarded(Do(s, a), c) || FireFails(s, a, c)
  {
    var s' := Do(s, a);
    if Firing(s, c) {
      if Fires(s, a, c) && !a.stmt.fault {
        FireTakesOut(s, a.t, f);
        assert false;
      } else if !Fires(s, a, c) {
        CommittedUntilItFires(s, a, c);
      }
    } else if TimerRan(c) in s'.log {
      MarkingCommits(s, a, c);
    } else {
      StepKeepsWhole(s, a);
      assert Coming(s', c);
    }
  }

  /** A callback about to cancel the event has marked its call. */
  ghost predicate FiresMarked(s: Sys)
  {
    forall g :: 0 <= g < |s.progs| && s.progs[g].TimeoutFire? ==> TimerRan(s.progs[g].call) in s.log
  }

  lemma StmtMarks(s: Sys, t: nat, stmt: Stmt)
    requires CanRun(s, t, stmt) && Runs(s, t)
    ensures var s', f := DoStmt(s, t, stmt), s.threads[t].pc.fiber;
            f < |s'.progs| && (s'.progs[f].TimeoutFire? ==> TimerRan(s'.progs[f].call) in s'.log)
  {
    if stmt.CancelTimeout? {
      match CodeAt(s, t)
      case CallWoken(_, _, _, _) =>
      case CallFailed(_, _) =>
    } else if UsesFds(stmt) {
      forall c: nat ensures !Committed(DoStmt(s, t, stmt).progs[s.threads[t].pc.fiber], c) {
        FdStmtCommits(s, t, stmt, c);
      }
    }
  }

  lemma StepKeepsMarked(s: Sys, a: Action)
    requires Whole(s) && FiresMarked(s) && Can(s, a)
    ensures FiresMarked(Do(s, a))
  {
    var s' := Do(s, a);
    LogStays(s, a);
    forall g | 0 <= g < |s'.progs| && s'.progs[g].TimeoutFire? ensures TimerRan(s'.progs[g].call) in s'.log {
      match a
      case Loop(t, move) =>
        if move.Switch? {
          SwitchCommitsNone(s, t, s'.progs[g].call);
        } else {
          MoveShape(s, t, move);
        }
      case Outside(deed) => DeedShape(s, deed);
      case Code(t, stmt) =>
        StmtCounts(s, t, stmt, TimeoutOf(0));
        StmtMarks(s, t, stmt);
    }
  }

  lemma {:induction false} RunKeepsMarked(s: Sys, run: seq<Action>)
    requires Whole(s) && FiresMarked(s) && ValidRun(s, run)
    ensures FiresMarked(After(s, run))
    decreases |run|
  {
    if run != [] {
      StepKeepsMarked(s, run[0]);
      StepKeepsWhole(s, run[0]);
      RunKeepsMarked(Do(s, run[0]), run[1..]);
    }
  }

  lemma ReachableMarked(s: Sys)
    requires Reachable(s)
    ensures FiresMarked(s)
  {
    var n: nat, run :| ValidRun(InitialSys(n), run) && After(InitialSys(n), run) == s;
    assert ValidRun(InitialSys(n), []) && After(InitialSys(n), []) == InitialSys(n);
    ReachableWhole(InitialSys(n));
    RunKeepsMarked(InitialSys(n), run);
  }

  /** All through the run the fiber waits in its slot. */
  ghost predicate WaitsThrough(s: Sys, run: seq<Action>, f: nat, c: nat)
    requires ValidRun(s, run)
    decreases |run|
  {
    WaitsInSlot(s, f, c) && (run == [] || WaitsThrough(Do(s, run[0]), run[1..], f, c))
  }

  /** Some step of the run is a callback's cancelEvent that the kernel refuses. */
  ghost predicate Refused(s: Sys, run: seq<Action>, c: nat)
    requires ValidRun(s, run)
    decreases |run|
  {
    run != [] && (FireFails(s, run[0], c) || Refused(Do(s, run[0]), run[1..], c))
  }

  lemma {:induction false} MarkStays(s: Sys, run: seq<Action>, c: nat)
    requires ValidRun(s, run) && TimerRan(c) in s.log
    ensures TimerRan(c) in After(s, run).log
    decreases |run|
  {
    if run != [] {
      LogStays(s, run[0]);
      MarkStays(Do(s, run[0]), run[1..], c);
    }
  }

  lemma {:induction false} RunLosesExactly(s: Sys, run: seq<Action>, f: nat, c: nat)
    requires Whole(s) && ClosuresOk(s) && FiresMarked(s) && ValidRun(s, run) && WaitsThrough(s, run, f, c)
    ensures Lost(After(s, run), c) <==> Lost(s, c) || (Refused(s, run, c) && !Firing(After(s, run), c))
    decreases |run|
  {
    if run != [] {
      var s1 := Do(s, run[0]);
      assert WaitsThrough(s1, run[1..], f, c);
      StepKeepsWhole(s, run[0]);
      StepKeepsClosures(s, run[0]);
      StepKeepsMarked(s, run[0]);
      RunLosesExactly(s1, run[1..], f, c);
      StepLosesExactly(s, run[0], f, c);
      if FireFails(s, run[0], c) {
        MarkStays(s1, run[1..], c);
      }
    }
  }

  lemma StepLosesExactly(s: Sys, a: Action, f: nat, c: nat)
    requires Whole(s) && ClosuresOk(s) && Can(s, a) && WaitsInSlot(s, f, c) && WaitsInSlot(Do(s, a), f, c)
    requires FiresMarked(s)
    ensures Lost(s, c) ==> Lost(Do(s, a), c)
    ensures !Lost(s, c) && !FireFails(s, a, c) ==> !Lost(Do(s, a), c)
    ensures FireFails(s, a, c) ==> TimerRan(c) in Do(s, a).log
  {
    LogStays(s, a);
    LostOrGuarded(s, f, c);
    if Lost(s, c) {
      LostStays(s, a, c);
    } else {
      GuardedStays(s, a, f, c);
    }
  }

  /** The exact condition: a call that waits in its slot has nothing left to time it out, now and for ever, if and
      only if a callback had marked it and ended, with none committed, before its addEvent, or the kernel has since
      refused a callback's cancelEvent and no other callback is committed. */
  lemma TimeoutLostExactly(s: Sys, t: nat, run: seq<Action>)
    requires Reachable(s) && CanRun(s, t, AddWait(false)) && TimerOf(CodeAt(s, t)).Some?
    requires ValidRun(DoAddWait(s, t, false), run)
    requires WaitsThrough(DoAddWait(s, t, false), run, s.threads[t].pc.fiber, CodeAt(s, t).call)
    ensures var c, s1 := CodeAt(s, t).call, DoAddWait(s, t, false);
            var s' := After(s1, run);
            && (Lost(s', c) <==> Lost(s, c) || (Refused(s1, run, c) && !Firing(s', c)))
            && (Guarded(s', c) <==> !Lost(s', c))
  {
    var f, c, a, s1 := s.threads[t].pc.fiber, CodeAt(s, t).call, Code(t, AddWait(false)), DoAddWait(s, t, false);
    AddWaitDecidesNothing(s, t, false);
    ReachableWhole(s);
    ReachableClosures(s);
    ReachableMarked(s);
    StepKeepsWhole(s, a);
    StepKeepsClosures(s, a);
    StepKeepsMarked(s, a);
    RunLosesExactly(s1, run, f, c);
    StillTimed(s1, run, f, c);
    LostOrGuarded(After(s1, run), f, c);
    NotBoth(After(s1, run), c);
  }

  lemma {:induction false} StillTimed(s: Sys, run: seq<Action>, f: nat, c: nat)
    requires Whole(s) && ValidRun(s, run) && WaitsThrough(s, run, f, c)
    ensures Whole(After(s, run)) && WaitsInSlot(After(s, run), f, c)
    decreases |run|
  {
    if run != [] {
      StepKeepsWhole(s, run[0]);
      StillTimed(Do(s, run[0]), run[1..], f, c);
    }
  }

  lemma LostOrGuarded(s: Sys, f: nat, c: nat)
    requires TimedOk(s) && f < |s.progs| && Timed(s.progs[f], c)
    ensures Lost(s, c) || Guarded(s, c)
  {
    assert Coming(s, c);
  }

  lemma NotBoth(s: Sys, c: nat)
    ensures !(Lost(s, c) && Guarded(s, c))
  {
  }
}
