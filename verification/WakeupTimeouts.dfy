/** A timeout is not forgotten: a call that waits with a timer has that timer armed, or a timeout callback
    of it outstanding, or one has taken effect. */
module WakeupTimeouts {
  import opened Counting
  import opened Tasks
  import opened FdEvents
  import opened FdEventProofs
  import opened Wakeup
  import opened WakeupInvariant
  import opened WakeupFibers
  import opened WakeupTasks
  import opened WakeupHistory
  import opened WakeupTheorems
  import opened WakeupSlots
  import opened WakeupNoLoss
  import opened WakeupOutcomes
  import opened WakeupTimers

  /** The code is in call `c` with a timer. */
  predicate Timed(prog: Prog, c: nat) { CallIdOf(prog) == Some(c) && TimerOf(prog).Some? }

  ghost predicate Coming(s: Sys, c: nat) { Wakeups(s, TimeoutOf(c)) >= 1 || TimerRan(c) in s.log }

  ghost predicate TimedOk(s: Sys)
  {
    && (forall f :: 0 <= f < |s.progs| ==> TimerIsOwn(s, s.progs[f]))
    && (forall f, c :: 0 <= f < |s.progs| && Timed(s.progs[f], c) ==> Coming(s, c))
  }

  ghost predicate Whole(s: Sys) { Inv(s) && LoopOk(s) && SlotsOk(s) && Timely(s) && TimedOk(s) }

  /** Steps that leave every code in its call, with its timer. */
  lemma SameCodeKeepsTimed(s: Sys, s': Sys)
    requires TimedOk(s) && SameCode(s, s')
    requires forall c: nat :: Coming(s, c) ==> Coming(s', c)
    ensures TimedOk(s')
  {
    forall f | 0 <= f < |s'.progs| ensures TimerIsOwn(s', s'.progs[f]) {
      assert f < |s.progs| ==> TimerIsOwn(s, s.progs[f]);
    }
    forall f, c | 0 <= f < |s'.progs| && Timed(s'.progs[f], c) ensures Coming(s', c) {
      assert Timed(s.progs[f], c);
    }
  }

  lemma SwitchLosesNoTimeout(s: Sys, t: nat, c: nat)
    requires Inv(s) && LoopOk(s) && AtPicked(s, t)
    ensures Wakeups(DoSwitch(s, t), TimeoutOf(c)) == Wakeups(s, TimeoutOf(c))
  {
    var th := s.threads[t];
    match th.pc.entry.task
    case FiberTask(f) =>
      ThreadsBound(s, t, WakeOf(f));
      assert FiberOk(s, f);
      if StateOf(s.states, f).Finished() {
        DropLosesOnlyTheFinished(s, t, TimeoutOf(c));
      } else {
        SwapInLosesOnlyItsOwn(s, t, f, TimeoutOf(c));
      }
    case CbTask(_) =>
      if th.cbFiber.None? {
        SwitchNewLosesNothing(s, t, TimeoutOf(c));
      } else {
        assert ThreadOk(s, th);
        SwapInLosesOnlyItsOwn(s, t, th.cbFiber.value, TimeoutOf(c));
      }
  }

  lemma MoveKeepsTimed(s: Sys, t: nat, move: Move)
    requires Whole(s) && CanMove(s, t, move)
    ensures TimedOk(DoMove(s, t, move))
  {
    var s' := DoMove(s, t, move);
    if move.Switch? {
      SwitchSameCode(s, t);
    } else {
      MoveSameCode(s, t, move);
    }
    forall c: nat | Coming(s, c) ensures Coming(s', c) {
      if move.Switch? {
        SwitchLosesNoTimeout(s, t, c);
      } else {
        MoveLosesNothing(s, t, move, TimeoutOf(c));
      }
    }
    SameCodeKeepsTimed(s, s');
  }

  /** Slots hold no timeout callbacks, so no delEvent can lose one. */
  lemma DeedLosesNoTimeout(s: Sys, deed: Deed, c: nat)
    requires Inv(s) && SlotsOk(s) && CanHappen(s, deed)
    ensures Wakeups(DoDeed(s, deed), TimeoutOf(c)) >= Wakeups(s, TimeoutOf(c))
  {
    DeedCounts(s, deed, TimeoutOf(c));
    if deed.DropEvent? {
      DelEventKeeps(s.io, deed.fd, deed.ev, deed.fault);
      DropCounts(s, deed.fd, deed.ev, deed.fault, TimeoutOf(c));
      assert RegisteredAt(s.io, deed.fd, deed.ev) ==> SlotOk(s.progs, s.io.fds[deed.fd].Get(deed.ev), deed.fd, deed.ev);
    }
  }

  lemma DeedKeepsTimed(s: Sys, deed: Deed)
    requires Whole(s) && CanHappen(s, deed)
    ensures TimedOk(DoDeed(s, deed))
  {
    var s' := DoDeed(s, deed);
    DeedSameCode(s, deed);
    forall c: nat | Coming(s, c) ensures Coming(s', c) {
      DeedLosesNoTimeout(s, deed, c);
    }
    SameCodeKeepsTimed(s, s');
  }

  // ----- a fiber's own code

  /** What the code of a timeout callback does to its own weight: it keeps it, or finds the call marked or
      dead, or marks it. */
  lemma CallbackWeight(s: Sys, t: nat, stmt: Stmt, c: nat)
    requires CanRun(s, t, stmt) && Runs(s, t) && CallOf(s, c).live && (CallOf(s, c).cancelled ==> TimerRan(c) in s.log)
    requires s.log <= DoStmt(s, t, stmt).log
    ensures var s', f := DoStmt(s, t, stmt), s.threads[t].pc.fiber;
            && f < |s'.progs|
            && (ProgWeight(TimeoutOf(c), s'.progs[f]) == ProgWeight(TimeoutOf(c), s.progs[f]) || TimerRan(c) in s'.log)
  {
    if stmt.CancelTimeout? {
      match CodeAt(s, t)
      case CallWoken(_, _, _, _) =>
      case CallFailed(_, _) =>
    } else if UsesFds(stmt) {
      FdStmtWeight(s, t, stmt, c);
    } else {
      OtherStmtWeight(s, t, stmt, c);
    }
  }

  lemma FdStmtWeight(s: Sys, t: nat, stmt: Stmt, c: nat)
    requires CanRun(s, t, stmt) && UsesFds(stmt)
    ensures var s', f := DoStmt(s, t, stmt), s.threads[t].pc.fiber;
            f < |s'.progs| && ProgWeight(TimeoutOf(c), s'.progs[f]) == ProgWeight(TimeoutOf(c), s.progs[f]) == 0
  {
  }

  lemma OtherStmtWeight(s: Sys, t: nat, stmt: Stmt, c: nat)
    requires CanRun(s, t, stmt) && !UsesFds(stmt) && !stmt.CancelTimeout?
    requires CallOf(s, c).live && (CallOf(s, c).cancelled ==> TimerRan(c) in s.log) && s.log <= DoStmt(s, t, stmt).log
    ensures var s', f := DoStmt(s, t, stmt), s.threads[t].pc.fiber;
            && f < |s'.progs|
            && (ProgWeight(TimeoutOf(c), s'.progs[f]) == ProgWeight(TimeoutOf(c), s.progs[f]) || TimerRan(c) in s'.log)
  {
    if stmt.RunTimeoutSet? {
      var call := CodeAt(s, t).call;
      assert DoStmt(s, t, stmt).log == s.log + [TimerRan(call)];
    }
  }

  /** Whoever's code it is, it loses no timeout callback of a live call other than by marking the call or by
      cancelling that call's timer. */
  lemma StmtKeepsComing(s: Sys, t: nat, stmt: Stmt, c: nat)
    requires Whole(s) && CanRun(s, t, stmt) && Runs(s, t) && CallOf(s, c).live && Coming(s, c)
    requires !Disarms(CodeAt(s, t), TimeoutOf(c))
    ensures Coming(DoStmt(s, t, stmt), c)
  {
    StmtCounts(s, t, stmt, TimeoutOf(c));
    StmtAppends(s, t, stmt);
    assert CallOk(s, c) && TimerIsOwn(s, CodeAt(s, t));
    CallbackWeight(s, t, stmt, c);
  }

  /** The code that has a timer after its step has just armed it, or had it before. */
  lemma OwnTimed(s: Sys, t: nat, stmt: Stmt, c: nat)
    requires CanRun(s, t, stmt) && Runs(s, t) && IoInv(s.io) && TimerIsOwn(s, CodeAt(s, t))
    requires s.threads[t].pc.fiber < |DoStmt(s, t, stmt).progs|
      && Timed(DoStmt(s, t, stmt).progs[s.threads[t].pc.fiber], c)
    ensures (Timed(CodeAt(s, t), c) && stmt.AddWait?) || Wakeups(DoStmt(s, t, stmt), TimeoutOf(c)) >= 1
  {
    if stmt.AddWait? {
      AddWaitTimers(s, t, stmt.fault);
    } else if UsesFds(stmt) {
      FdStmtTimers(s, t, stmt);
      assert false;
    } else if stmt.CancelTimeout? {
      CancelTimeoutTimers(s, t);
      assert false;
    } else {
      ArmedByItself(s, t, stmt, c);
    }
  }

  lemma ArmedByItself(s: Sys, t: nat, stmt: Stmt, c: nat)
    requires CanRun(s, t, stmt) && Runs(s, t) && !UsesFds(stmt) && !stmt.CancelTimeout?
    requires s.threads[t].pc.fiber < |DoStmt(s, t, stmt).progs|
      && Timed(DoStmt(s, t, stmt).progs[s.threads[t].pc.fiber], c)
    ensures Wakeups(DoStmt(s, t, stmt), TimeoutOf(c)) >= 1
  {
    OnlyArmingTimes(s, t, stmt, c);
    var i := |s.timers|;
    SumAt(DoStmt(s, t, stmt).timers, i, OfTimer(TimeoutOf(c)));
  }

  lemma OnlyArmingTimes(s: Sys, t: nat, stmt: Stmt, c: nat)
    requires CanRun(s, t, stmt) && Runs(s, t) && !UsesFds(stmt) && !stmt.CancelTimeout?
    requires s.threads[t].pc.fiber < |DoStmt(s, t, stmt).progs|
      && Timed(DoStmt(s, t, stmt).progs[s.threads[t].pc.fiber], c)
    ensures TimerFor(DoStmt(s, t, stmt), |s.timers|, c)
  {
  }

  lemma StmtKeepsTimed(s: Sys, t: nat, stmt: Stmt)
    requires Whole(s) && CanRun(s, t, stmt)
    ensures TimedOk(DoStmt(s, t, stmt))
  {
    var s' := DoStmt(s, t, stmt);
    StmtCounts(s, t, stmt, TimeoutOf(0));
    var f := s.threads[t].pc.fiber;
    assert TimerIsOwn(s, s.progs[f]);
    StmtTimers(s, t, stmt);
    forall g | 0 <= g < |s'.progs| ensures TimerIsOwn(s', s'.progs[g]) {
      assert TimerIsOwn(s, s.progs[g]);
    }
    forall g, c | 0 <= g < |s'.progs| && Timed(s'.progs[g], c) ensures Coming(s', c) {
      TimedStays(s, t, stmt, g, c);
    }
  }

  lemma TimedStays(s: Sys, t: nat, stmt: Stmt, g: nat, c: nat)
    requires Whole(s) && CanRun(s, t, stmt) && Runs(s, t)
    requires g < |s.progs| == |DoStmt(s, t, stmt).progs| && Timed(DoStmt(s, t, stmt).progs[g], c)
    requires g != s.threads[t].pc.fiber ==> DoStmt(s, t, stmt).progs[g] == s.progs[g]
    ensures Coming(DoStmt(s, t, stmt), c)
  {
    var f := s.threads[t].pc.fiber;
    assert TimerIsOwn(s, CodeAt(s, t));
    if g == f {
      OwnTimed(s, t, stmt, c);
    }
    if g != f || (Timed(CodeAt(s, t), c) && stmt.AddWait?) {
      assert Timed(s.progs[g], c) && LiveCode(s, s.progs[g]);
      StmtKeepsComing(s, t, stmt, c);
    }
  }

  // ----- whole runs

  lemma StepKeepsTimed(s: Sys, a: Action)
    requires Whole(s) && Can(s, a)
    ensures TimedOk(Do(s, a))
  {
    match a
    case Loop(t, move) => MoveKeepsTimed(s, t, move);
    case Code(t, stmt) => StmtKeepsTimed(s, t, stmt);
    case Outside(deed) => DeedKeepsTimed(s, deed);
  }

  lemma {:induction false} RunKeepsTimed(s: Sys, run: seq<Action>)
    requires Whole(s) && ValidRun(s, run)
    ensures Whole(After(s, run))
    decreases |run|
  {
    if run != [] {
      StepKeepsInv(s, run[0]);
      StepKeepsLoopOk(s, run[0]);
      StepKeepsSlotsOk(s, run[0]);
      StepKeepsTimely(s, run[0]);
      StepKeepsTimed(s, run[0]);
      RunKeepsTimed(Do(s, run[0]), run[1..]);
    }
  }

  lemma ReachableWhole(s: Sys)
    requires Reachable(s)
    ensures Whole(s)
  {
    var n: nat, run :| ValidRun(InitialSys(n), run) && After(InitialSys(n), run) == s;
    InitialInv(n);
    InitialSlotsOk(n);
    assert Timely(InitialSys(n)) && TimedOk(InitialSys(n));
    RunKeepsTimed(InitialSys(n), run);
  }

  /** The timeout callbacks of a call that are on their way: expired, queued, dequeued or running. */
  function Underway(s: Sys, c: nat): int { Wakeups(s, TimeoutOf(c)) - Sum(s.timers, OfTimer(TimeoutOf(c))) }

  predicate TimerFor(s: Sys, i: nat, c: nat)
  {
    i < |s.timers| && s.timers[i].Some? && s.timers[i].value.TimeoutCall? && s.timers[i].value.call == c
  }

  /** In every reachable state a call that waits with timer `i` has it armed, or a callback of the call is on
      its way, or one has taken effect. */
  lemma TimeoutIsNotForgotten(s: Sys, f: nat)
    requires Reachable(s) && f < |s.progs| && s.progs[f].CallWait? && s.progs[f].timer.Some?
    ensures var CallWait(c, _, _, timer) := s.progs[f];
            TimerFor(s, timer.value, c) || Underway(s, c) >= 1 || TimerRan(c) in s.log
  {
    ReachableWhole(s);
    ComingFrom(s, f, s.progs[f].call);
  }

  lemma ComingFrom(s: Sys, f: nat, c: nat)
    requires OwnersOk(s) && LivesOk(s) && TimedOk(s) && f < |s.progs| && Timed(s.progs[f], c)
    ensures TimerFor(s, TimerOf(s.progs[f]).value, c) || Underway(s, c) >= 1 || TimerRan(c) in s.log
  {
    assert Coming(s, c);
    if Sum(s.timers, OfTimer(TimeoutOf(c))) >= 1 {
      var j := SumPositive(s.timers, OfTimer(TimeoutOf(c)));
      assert TimerFor(s, j, c);
      OwnersTimer(s, f, c, j);
    }
  }

  lemma OwnersTimer(s: Sys, f: nat, c: nat, j: nat)
    requires OwnersOk(s) && LivesOk(s) && f < |s.progs| && Timed(s.progs[f], c) && TimerFor(s, j, c)
    ensures TimerOf(s.progs[f]) == Some(j)
  {
    assert Owned(s, j);
    var g :| 0 <= g < |s.progs| && Owns(s.progs[g], c, j);
  }
}
