/** Every step keeps the fd table's invariant and what the log promises about registrations and
    timeouts (HistoryOk). */
module WakeupHistory {
  import opened Counting
  import opened Tasks
  import opened FdEvents
  import opened FdEventProofs
  import opened Wakeup
  import opened WakeupInvariant
  import opened WakeupFibers
  import opened WakeupTasks

  // ----- the fd table and its registrations

  /** An fd operation leaves registration `r` as accounted for as before. */
  ghost predicate RegEffect(io: Io, o: Outcome, r: nat)
  {
    && !o.Aborted? && IoInv(o.io) && io.nextReg <= o.io.nextReg
    && Weight(o.io, OfReg(r)) + (if o.Done? then Sum(o.woken, OfReg(r)) else 0)
         <= Weight(io, OfReg(r)) + (if io.nextReg <= r < o.io.nextReg then 1 else 0)
  }

  lemma AddRegEffect(io: Io, fd: nat, ev: EventType, who: Task, fault: bool, r: nat)
    requires IoInv(io) && !AddEvent(io, fd, ev, who, fault).Aborted?
    ensures RegEffect(io, AddEvent(io, fd, ev, who, fault), r)
  {
    AddEventKeeps(io, fd, ev, who, fault);
    AddEventWeight(io, fd, ev, who, fault, OfReg(r));
    if AddEvent(io, fd, ev, who, fault).Done? {
      AddEventSlot(io, fd, ev, who, fault);
    }
  }

  lemma DropRegEffect(io: Io, fd: nat, ev: EventType, fault: bool, r: nat)
    requires IoInv(io)
    ensures RegEffect(io, DelEvent(io, fd, ev, fault), r)
  {
    DelEventKeeps(io, fd, ev, fault);
    DelEventWeight(io, fd, ev, fault, OfReg(r));
  }

  lemma CancelRegEffect(io: Io, fd: nat, ev: EventType, fault: bool, r: nat)
    requires IoInv(io)
    ensures RegEffect(io, CancelEvent(io, fd, ev, fault), r)
  {
    CancelEventKeeps(io, fd, ev, fault, OfReg(r));
  }

  lemma CancelFdRegEffect(io: Io, fd: nat, fault: bool, r: nat)
    requires IoInv(io)
    ensures RegEffect(io, CancelAll(io, fd, fault), r)
  {
    CancelAllKeeps(io, fd, fault, OfReg(r));
  }

  lemma ReportRegEffect(io: Io, fd: nat, report: Report, fault: bool, r: nat)
    requires IoInv(io) && fd < |io.fds| && !Dispatch(io, fd, report, fault).Aborted?
    ensures RegEffect(io, Dispatch(io, fd, report, fault), r)
  {
    DispatchKeeps(io, fd, report, fault, OfReg(r));
  }

  /** The fd operation a step performs; without one the table stays as it is. */
  function DeedOutcome(s: Sys, deed: Deed): Outcome
    requires CanHappen(s, deed)
  {
    match deed
    case DropEvent(fd, ev, fault) => DelEvent(s.io, fd, ev, fault)
    case Cancel(fd, ev, fault) => CancelEvent(s.io, fd, ev, fault)
    case CancelFd(fd, fault) => CancelAll(s.io, fd, fault)
    case Report(_, fd, r, fault) => Dispatch(s.io, fd, r, fault)
    case _ => Refused(s.io)
  }

  function StmtOutcome(s: Sys, t: nat, stmt: Stmt): Outcome
    requires CanRun(s, t, stmt)
  {
    match stmt
    case RegisterSelf(fd, ev, fault) => AddEvent(s.io, fd, ev, FiberTask(s.threads[t].pc.fiber), fault)
    case RegisterCb(fd, ev, id, fault) => AddEvent(s.io, fd, ev, CbTask(Client(id)), fault)
    case AddWait(fault) =>
      AddEvent(s.io, CodeAt(s, t).fd, CodeAt(s, t).ev, FiberTask(s.threads[t].pc.fiber), fault)
    case RunTimeoutFire(fault) => CancelEvent(s.io, CodeAt(s, t).fd, CodeAt(s, t).ev, fault)
    case _ => Refused(s.io)
  }

  lemma DeedRegEffect(s: Sys, deed: Deed, r: nat)
    requires IoInv(s.io) && CanHappen(s, deed)
    ensures RegEffect(s.io, DeedOutcome(s, deed), r)
  {
    if deed.DropEvent? {
      DropRegEffect(s.io, deed.fd, deed.ev, deed.fault, r);
    } else if deed.Cancel? {
      CancelRegEffect(s.io, deed.fd, deed.ev, deed.fault, r);
    } else if deed.CancelFd? {
      CancelFdRegEffect(s.io, deed.fd, deed.fault, r);
    } else if deed.Report? {
      ReportRegEffect(s.io, deed.fd, deed.report, deed.fault, r);
    }
  }

  lemma StmtRegEffect(s: Sys, t: nat, stmt: Stmt, r: nat)
    requires IoInv(s.io) && CanRun(s, t, stmt) && UsesFds(stmt)
    ensures RegEffect(s.io, StmtOutcome(s, t, stmt), r)
  {
    var f, code := s.threads[t].pc.fiber, CodeAt(s, t);
    match stmt
    case RegisterSelf(fd, ev, fault) => AddRegEffect(s.io, fd, ev, FiberTask(f), fault, r);
    case RegisterCb(fd, ev, id, fault) => AddRegEffect(s.io, fd, ev, CbTask(Client(id)), fault, r);
    case AddWait(fault) => AddRegEffect(s.io, code.fd, code.ev, FiberTask(f), fault, r);
    case RunTimeoutFire(fault) => CancelRegEffect(s.io, code.fd, code.ev, fault, r);
  }

  /** As far as fds, log and calls go, the step is its fd operation. */
  predicate LikeAbsorb(s: Sys, o: Outcome, s': Sys)
  {
    s'.io == Absorb(s, o).io && s'.log == Absorb(s, o).log && s'.calls == s.calls
  }

  lemma DeedIsOutcome(s: Sys, deed: Deed)
    requires CanHappen(s, deed)
    ensures LikeAbsorb(s, DeedOutcome(s, deed), DoDeed(s, deed))
  {
  }

  lemma StmtIsOutcome(s: Sys, t: nat, stmt: Stmt)
    requires CanRun(s, t, stmt) && UsesFds(stmt)
    ensures LikeAbsorb(s, StmtOutcome(s, t, stmt), DoStmt(s, t, stmt))
  {
  }

  lemma AbsorbRegOk(s: Sys, o: Outcome, s': Sys, r: nat)
    requires RegOk(s, r) && RegEffect(s.io, o, r) && LikeAbsorb(s, o, s')
    ensures RegOk(s', r)
  {
    if o.Done? {
      var woke := seq(|o.woken|, i requires 0 <= i < |o.woken| => Woke(o.woken[i].reg));
      SumAppend(s.log, woke, WokeReg(r));
      SumPointwise(o.woken, OfReg(r), woke, WokeReg(r));
    }
  }

  ghost predicate RegsOk(s: Sys) { IoInv(s.io) && forall r: nat :: RegOk(s, r) }

  lemma DeedKeepsRegs(s: Sys, deed: Deed)
    requires RegsOk(s) && CanHappen(s, deed)
    ensures RegsOk(DoDeed(s, deed))
  {
    DeedIsOutcome(s, deed);
    DeedRegEffect(s, deed, 0);
    forall r: nat ensures RegOk(DoDeed(s, deed), r) {
      DeedRegEffect(s, deed, r);
      AbsorbRegOk(s, DeedOutcome(s, deed), DoDeed(s, deed), r);
    }
  }

  lemma FdStmtKeepsRegs(s: Sys, t: nat, stmt: Stmt)
    requires RegsOk(s) && CanRun(s, t, stmt) && UsesFds(stmt)
    ensures RegsOk(DoStmt(s, t, stmt))
  {
    StmtIsOutcome(s, t, stmt);
    StmtRegEffect(s, t, stmt, 0);
    forall r: nat ensures RegOk(DoStmt(s, t, stmt), r) {
      StmtRegEffect(s, t, stmt, r);
      AbsorbRegOk(s, StmtOutcome(s, t, stmt), DoStmt(s, t, stmt), r);
    }
  }

  /** No fd operation: same table, nothing triggered. */
  predicate QuietForFds(s: Sys, s': Sys)
  {
    s'.io == s.io && s.log <= s'.log && forall i :: |s.log| <= i < |s'.log| ==> !s'.log[i].Woke?
  }

  lemma QuietKeepsRegs(s: Sys, s': Sys)
    requires RegsOk(s) && QuietForFds(s, s')
    ensures RegsOk(s')
  {
    forall r: nat ensures RegOk(s', r) {
      assert RegOk(s, r);
      var ev := s'.log[|s.log|..];
      assert s'.log == s.log + ev;
      SumAppend(s.log, ev, WokeReg(r));
      SumZero(ev, WokeReg(r));
    }
  }

  // ----- hooked calls

  /** Nothing happens to calls: no timer armed, no callback run, no timeout reported. */
  ghost predicate QuietForCalls(s: Sys, s': Sys)
  {
    && s.log <= s'.log
    && (forall i :: |s.log| <= i < |s'.log| ==> s'.log[i].Consumed? || s'.log[i].Woke? || s'.log[i].Returned?)
    && (forall c: nat :: CallOf(s', c).cancelled ==> CallOf(s, c).cancelled)
  }

  ghost predicate CallsOk(s: Sys) { (forall c: nat :: CallOk(s, c)) && LogOk(s.log) }

  lemma QuietKeepsCalls(s: Sys, s': Sys)
    requires CallsOk(s) && QuietForCalls(s, s')
    requires forall c: nat :: Wakeups(s', TimeoutOf(c)) <= Wakeups(s, TimeoutOf(c))
    ensures CallsOk(s')
  {
    var ev := s'.log[|s.log|..];
    assert s'.log == s.log + ev;
    forall c: nat ensures CallOk(s', c) {
      assert CallOk(s, c);
      SumAppend(s.log, ev, RanFor(c));
      SumZero(ev, RanFor(c));
      SumAppend(s.log, ev, ArmedFor(c));
      SumZero(ev, ArmedFor(c));
    }
    LogExtends(s.log, ev);
  }

  lemma LogExtends(log: seq<Event>, ev: seq<Event>)
    requires LogOk(log) && forall i :: 0 <= i < |ev| ==> !ev[i].TimedOut?
    ensures LogOk(log + ev)
  {
    forall j | 0 <= j < |log + ev| && (log + ev)[j].TimedOut? ensures TimerRan((log + ev)[j].call) in (log + ev)[..j] {
      assert (log + ev)[..j] == log[..j];
    }
  }

  lemma ArmTimeoutKeepsCalls(s: Sys, t: nat, wanted: bool)
    requires CallsOk(s) && AtArm(s, t)
    ensures CallsOk(DoArmTimeout(s, t, wanted))
  {
    var s', call := DoArmTimeout(s, t, wanted), CodeAt(s, t).call;
    forall c: nat ensures CallOk(s', c) {
      assert CallOk(s, c);
      ArmTimeoutEffect(s, t, wanted, TimeoutOf(c));
      SumSnoc(s.log, Event.Armed(call), RanFor(c));
      SumSnoc(s.log, Event.Armed(call), ArmedFor(c));
    }
    LogExtends(s.log, [Event.Armed(call)]);
  }

  lemma TimeoutSetKeepsCalls(s: Sys, t: nat)
    requires CallsOk(s) && AtTimeoutSet(s, t)
    ensures CallsOk(DoRunTimeoutSet(s, t))
  {
    var s', call := DoRunTimeoutSet(s, t), CodeAt(s, t).call;
    forall c: nat ensures CallOk(s', c) {
      assert CallOk(s, c);
      TimeoutSetEffect(s, t, TimeoutOf(c));
      SumSnoc(s.log, TimerRan(call), RanFor(c));
      SumSnoc(s.log, TimerRan(call), ArmedFor(c));
    }
    LogExtends(s.log, [TimerRan(call)]);
  }

  lemma LogTimesOut(log: seq<Event>, c: nat)
    requires LogOk(log) && TimerRan(c) in log
    ensures LogOk(log + [TimedOut(c)])
  {
    var log' := log + [TimedOut(c)];
    forall j | 0 <= j < |log'| && log'[j].TimedOut? ensures TimerRan(log'[j].call) in log'[..j] {
      assert log'[..j] == log[..j];
      assert log[..|log|] == log;
    }
  }

  lemma CheckTimeoutKeepsCalls(s: Sys, t: nat)
    requires CallsOk(s) && AtCheck(s, t)
    ensures CallsOk(DoCheckTimeout(s, t))
  {
    var s', call := DoCheckTimeout(s, t), CodeAt(s, t).call;
    forall c: nat ensures CallOk(s', c) {
      assert CallOk(s, c);
      CheckTimeoutEffect(s, t, TimeoutOf(c));
      SumSnoc(s.log, TimedOut(call), RanFor(c));
      SumSnoc(s.log, TimedOut(call), ArmedFor(c));
    }
    if CallOf(s, call).cancelled {
      assert CallOk(s, call);
      LogTimesOut(s.log, call);
    }
  }

  // ----- timeout callbacks move, but are not multiplied, by the scheduler

  lemma ScanTimeouts(s: Sys, t: nat, c: nat)
    requires AtScan(s, t)
    ensures Wakeups(DoScan(s, t), TimeoutOf(c)) <= Wakeups(s, TimeoutOf(c))
  {
    var s', i := DoScan(s, t), FirstEligible(s.queue, t, s.states);
    var s1 := if i < |s.queue| then s.(queue := Without(s.queue, i), active := s.active + 1) else s;
    ThreadDelta(s1, t, s'.threads[t], TimeoutOf(c));
    if i < |s.queue| {
      DequeueDelta(s, i, TimeoutOf(c));
    } else {
      assert s'.threads[t].pc.Idle? ==> Sum(s'.threads[t].pc.cbs, OfClosure(TimeoutOf(c))) == 0;
    }
  }

  lemma SwitchTimeouts(s: Sys, t: nat, c: nat)
    requires Kept(s) && AtPicked(s, t)
    ensures Wakeups(DoSwitch(s, t), TimeoutOf(c)) <= Wakeups(s, TimeoutOf(c))
  {
    var s', th := DoSwitch(s, t), s.threads[t];
    assert ThreadOk(s, th);
    match th.pc.entry.task
    case FiberTask(f) =>
      if StateOf(s.states, f).Finished() {
        ThreadDelta(s.(active := s.active - 1), t, s'.threads[t], TimeoutOf(c));
      } else {
        ThreadsBound(s, t, WakeOf(f));
        assert FiberOk(s, f);
        SwitchCounts(s, t, f, TimeoutOf(c));
      }
    case CbTask(_) =>
      if th.cbFiber.Some? {
        SwitchCounts(s, t, th.cbFiber.value, TimeoutOf(c));
      } else {
        SwitchNewCounts(s, t, TimeoutOf(c));
      }
  }

  /** A thread's move that shifts no timeout callback. */
  lemma ThreadMoveTimeouts(s: Sys, s': Sys, t: nat, c: nat)
    requires t < |s.threads| == |s'.threads| && s'.threads == s.threads[t := s'.threads[t]]
    requires s'.io == s.io && s'.timers == s.timers && s'.progs == s.progs
    requires s'.queue == s.queue || exists f, k :: s'.queue == s.queue + [Entry(FiberTask(f), ANY_THREAD, k)]
    requires PcWeight(TimeoutOf(c), s'.threads[t].pc) == 0
    ensures Wakeups(s', TimeoutOf(c)) <= Wakeups(s, TimeoutOf(c))
  {
    ThreadDelta(s, t, s'.threads[t], TimeoutOf(c));
    if s'.queue != s.queue {
      var f, k :| s'.queue == s.queue + [Entry(FiberTask(f), ANY_THREAD, k)];
      SumSnoc(s.queue, Entry(FiberTask(f), ANY_THREAD, k), OfEntry(TimeoutOf(c)));
    }
  }

  lemma MoveTimeouts(s: Sys, t: nat, move: Move, c: nat)
    requires Kept(s) && CanMove(s, t, move)
    ensures Wakeups(DoMove(s, t, move), TimeoutOf(c)) <= Wakeups(s, TimeoutOf(c))
  {
    if move.Scan? {
      ScanTimeouts(s, t, c);
    } else if move.Switch? {
      SwitchTimeouts(s, t, c);
    } else if move.Expire? {
      ExpireCounts(s, t, move.timer, move.recurring, TimeoutOf(c));
    } else if move.Flush? {
      FlushCounts(s, t, TimeoutOf(c));
    } else {
      ThreadMoveTimeouts(s, DoMove(s, t, move), t, c);
    }
  }

  // ----- which steps are quiet

  /** Scheduler threads log only the entries they consume. */
  lemma MoveQuiet(s: Sys, t: nat, move: Move)
    requires CanMove(s, t, move)
    ensures QuietForCalls(s, DoMove(s, t, move)) && QuietForFds(s, DoMove(s, t, move))
  {
    if move.Switch? {
      var task := s.threads[t].pc.entry.task;
      if !(task.FiberTask? && StateOf(s.states, task.fiber).Finished()) {
        SwapInShape(s, t);
      }
    }
  }

  lemma DeedQuiet(s: Sys, deed: Deed)
    requires CanHappen(s, deed)
    ensures QuietForCalls(s, DoDeed(s, deed))
  {
    DeedIsOutcome(s, deed);
  }

  lemma FdStmtQuiet(s: Sys, t: nat, stmt: Stmt)
    requires CanRun(s, t, stmt) && UsesFds(stmt)
    ensures QuietForCalls(s, DoStmt(s, t, stmt))
  {
    StmtIsOutcome(s, t, stmt);
  }

  /** Arming, setting and checking a timeout. */
  predicate ForTimeouts(stmt: Stmt) { stmt.ArmTimeout? || stmt.RunTimeoutSet? || stmt.CheckTimeout? }

  lemma CancelTimeoutQuiet(s: Sys, t: nat)
    requires AtDisarm(s, t)
    ensures QuietForCalls(s, DoCancelTimeout(s, t)) && QuietForFds(s, DoCancelTimeout(s, t))
  {
    match CodeAt(s, t)
    case CallWoken(_, _, _, _) =>
    case CallFailed(_, _) =>
  }

  lemma PlainStmtQuiet(s: Sys, t: nat, stmt: Stmt)
    requires CanRun(s, t, stmt) && !UsesFds(stmt) && !ForTimeouts(stmt)
    ensures QuietForCalls(s, DoStmt(s, t, stmt)) && QuietForFds(s, DoStmt(s, t, stmt))
  {
    if stmt.CancelTimeout? {
      CancelTimeoutQuiet(s, t);
    }
  }

  lemma TimeoutStmtQuiet(s: Sys, t: nat, stmt: Stmt)
    requires CanRun(s, t, stmt) && ForTimeouts(stmt)
    ensures QuietForFds(s, DoStmt(s, t, stmt))
  {
  }

  // ----- all steps

  lemma StepKeepsRegs(s: Sys, a: Action)
    requires RegsOk(s) && Can(s, a)
    ensures RegsOk(Do(s, a))
  {
    match a
    case Loop(t, move) =>
      MoveQuiet(s, t, move);
      QuietKeepsRegs(s, Do(s, a));
    case Outside(deed) => DeedKeepsRegs(s, deed);
    case Code(t, stmt) =>
      if UsesFds(stmt) {
        FdStmtKeepsRegs(s, t, stmt);
      } else {
        if ForTimeouts(stmt) {
          TimeoutStmtQuiet(s, t, stmt);
        } else {
          PlainStmtQuiet(s, t, stmt);
        }
        QuietKeepsRegs(s, Do(s, a));
      }
  }

  lemma TimeoutStmtKeepsCalls(s: Sys, t: nat, stmt: Stmt)
    requires CallsOk(s) && CanRun(s, t, stmt) && ForTimeouts(stmt)
    ensures CallsOk(DoStmt(s, t, stmt))
  {
    match stmt
    case ArmTimeout(wanted) => ArmTimeoutKeepsCalls(s, t, wanted);
    case RunTimeoutSet => TimeoutSetKeepsCalls(s, t);
    case CheckTimeout => CheckTimeoutKeepsCalls(s, t);
  }

  lemma StepQuiet(s: Sys, a: Action)
    requires Can(s, a) && !(a.Code? && ForTimeouts(a.stmt))
    ensures QuietForCalls(s, Do(s, a))
  {
    match a
    case Loop(t, move) => MoveQuiet(s, t, move);
    case Outside(deed) => DeedQuiet(s, deed);
    case Code(t, stmt) =>
      if UsesFds(stmt) {
        FdStmtQuiet(s, t, stmt);
      } else {
        PlainStmtQuiet(s, t, stmt);
      }
  }

  lemma StepKeepsCalls(s: Sys, a: Action)
    requires Core(s) && CallsOk(s) && Can(s, a)
    ensures CallsOk(Do(s, a))
  {
    if a.Code? && ForTimeouts(a.stmt) {
      TimeoutStmtKeepsCalls(s, a.t, a.stmt);
    } else {
      StepQuiet(s, a);
      forall c: nat ensures Wakeups(Do(s, a), TimeoutOf(c)) <= Wakeups(s, TimeoutOf(c)) {
        StepTimeouts(s, a, c);
      }
      QuietKeepsCalls(s, Do(s, a));
    }
  }

  /** Only arming a timeout adds a timeout callback. */
  lemma StepTimeouts(s: Sys, a: Action, c: nat)
    requires Core(s) && Can(s, a) && !(a.Code? && a.stmt.ArmTimeout?)
    ensures Wakeups(Do(s, a), TimeoutOf(c)) <= Wakeups(s, TimeoutOf(c))
  {
    match a
    case Loop(t, move) => MoveTimeouts(s, t, move, c);
    case Code(t, stmt) => StmtCounts(s, t, stmt, TimeoutOf(c));
    case Outside(deed) => DeedCounts(s, deed, TimeoutOf(c));
  }
}
