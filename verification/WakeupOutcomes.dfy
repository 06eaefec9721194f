/** What a hooked call and a trigger achieve: when exactly a call times out, and that readiness,
    timeouts and cancellation really queue the fiber that waits. */
module WakeupOutcomes {
  import opened Counting
  import opened Tasks
  import opened FdEvents
  import opened FdEventProofs
  import opened Wakeup
  import opened WakeupInvariant
  import opened WakeupFibers
  import opened WakeupTasks
  import opened WakeupHistory
  import opened WakeupTheorems
  import opened WakeupSlots

  // ----- the timer_info of a call

  /** The hooked call the code is in. */
  function CallIdOf(prog: Prog): Option<nat>
  {
    if prog.CallArm? || prog.CallAdd? || prog.CallWait? || prog.CallWoken? || prog.CallCheck? || prog.CallRetry?
        || prog.CallFailed?
    then Some(prog.call) else None
  }

  predicate Known(s: Sys, prog: Prog)
  {
    CallIdOf(prog).Some? ==> CallIdOf(prog).value < |s.calls|
  }

  predicate EventKnown(s: Sys, e: Event)
  {
    (e.Armed? ==> e.call < |s.calls|) && (e.TimerRan? ==> CallOf(s, e.call).cancelled)
  }

  /** Calls named by code and log exist, and a callback that ran has left its mark. */
  ghost predicate CallsKnown(s: Sys)
  {
    && (forall f :: 0 <= f < |s.progs| ==> Known(s, s.progs[f]))
    && (forall i :: 0 <= i < |s.log| ==> EventKnown(s, s.log[i]))
  }

  /** Calls are only added, and `cancelled` is never taken back. */
  predicate CallsGrow(s: Sys, s': Sys)
  {
    |s.calls| <= |s'.calls| && forall c :: 0 <= c < |s.calls| ==> s.calls[c].cancelled ==> s'.calls[c].cancelled
  }

  /** A step that names no new call, in the code of any fiber but `f`, and logs only known events. */
  lemma KnownStep(s: Sys, s': Sys, f: nat)
    requires CallsKnown(s) && CallsGrow(s, s') && s.log <= s'.log
    requires forall i :: |s.log| <= i < |s'.log| ==> EventKnown(s', s'.log[i])
    requires f < |s'.progs| ==> Known(s', s'.progs[f])
    requires forall g :: 0 <= g < |s'.progs| && g != f && CallIdOf(s'.progs[g]).Some? ==>
      g < |s.progs| && CallIdOf(s'.progs[g]) == CallIdOf(s.progs[g])
    ensures CallsKnown(s')
  {
    forall g | 0 <= g < |s'.progs| ensures Known(s', s'.progs[g]) {
      assert g < |s.progs| ==> Known(s, s.progs[g]);
    }
    forall i | 0 <= i < |s'.log| ensures EventKnown(s', s'.log[i]) {
      if i < |s.log| {
        assert EventKnown(s, s.log[i]);
      }
    }
  }

  lemma SwitchCalls(s: Sys, t: nat)
    requires |s.states| == |s.progs| && AtPicked(s, t)
    ensures var s' := DoSwitch(s, t);
            && s'.calls == s.calls
            && forall g :: 0 <= g < |s'.progs| && CallIdOf(s'.progs[g]).Some? ==>
                 g < |s.progs| && CallIdOf(s'.progs[g]) == CallIdOf(s.progs[g])
  {
    match s.threads[t].pc.entry.task
    case FiberTask(_) =>
    case CbTask(_) =>
      match s.threads[t].cbFiber
      case Some(_) =>
      case None =>
  }

  lemma MoveCalls(s: Sys, t: nat, move: Move)
    requires CanMove(s, t, move) && !move.Switch?
    ensures DoMove(s, t, move).calls == s.calls && DoMove(s, t, move).progs == s.progs
  {
  }

  lemma MoveKeepsKnown(s: Sys, t: nat, move: Move)
    requires CallsKnown(s) && |s.states| == |s.progs| && CanMove(s, t, move)
    ensures CallsKnown(DoMove(s, t, move))
  {
    var s' := DoMove(s, t, move);
    MoveQuiet(s, t, move);
    if move.Switch? {
      SwitchCalls(s, t);
    } else {
      MoveCalls(s, t, move);
    }
    KnownStep(s, s', |s'.progs|);
  }

  lemma DeedKeepsKnown(s: Sys, deed: Deed)
    requires CallsKnown(s) && CanHappen(s, deed)
    ensures CallsKnown(DoDeed(s, deed))
  {
    var s' := DoDeed(s, deed);
    DeedShape(s, deed);
    DeedQuiet(s, deed);
    KnownStep(s, s', |s'.progs|);
  }

  // ----- a fiber's own code

  lemma FdStmtCalls(s: Sys, t: nat, stmt: Stmt)
    requires CanRun(s, t, stmt) && UsesFds(stmt)
    ensures var s', f := DoStmt(s, t, stmt), s.threads[t].pc.fiber;
            s'.calls == s.calls && f < |s'.progs|
            && (CallIdOf(s'.progs[f]).Some? ==> CallIdOf(s'.progs[f]) == CallIdOf(s.progs[f]))
  {
    StmtIsOutcome(s, t, stmt);
  }

  lemma PlainStmtCalls(s: Sys, t: nat, stmt: Stmt)
    requires CanRun(s, t, stmt) && !UsesFds(stmt) && !ForTimeouts(stmt) && Known(s, CodeAt(s, t))
    ensures var s', f := DoStmt(s, t, stmt), s.threads[t].pc.fiber;
            CallsGrow(s, s') && f < |s'.progs| && Known(s', s'.progs[f])
  {
    if stmt.CancelTimeout? {
      match CodeAt(s, t)
      case CallWoken(_, _, _, _) =>
      case CallFailed(_, _) =>
    }
  }

  lemma ArmTimeoutCalls(s: Sys, t: nat, wanted: bool)
    requires AtArm(s, t) && Known(s, CodeAt(s, t))
    ensures var s', f := DoArmTimeout(s, t, wanted), s.threads[t].pc.fiber;
            && s'.calls == s.calls && f < |s'.progs| && Known(s', s'.progs[f])
            && s.log <= s'.log && forall i :: |s.log| <= i < |s'.log| ==> EventKnown(s', s'.log[i])
  {
  }

  lemma CheckTimeoutCalls(s: Sys, t: nat)
    requires AtCheck(s, t) && Known(s, CodeAt(s, t))
    ensures var s', f := DoCheckTimeout(s, t), s.threads[t].pc.fiber;
            && CallsGrow(s, s') && f < |s'.progs| && Known(s', s'.progs[f])
            && s.log <= s'.log && forall i :: |s.log| <= i < |s'.log| ==> EventKnown(s', s'.log[i])
  {
  }

  /** A timer callback about to set `cancelled` holds the timer_info of a call that exists. */
  lemma RunningTimeoutIsKnown(s: Sys, t: nat)
    requires CallsKnown(s) && AtTimeoutSet(s, t) && CallOk(s, CodeAt(s, t).call)
    ensures CodeAt(s, t).call < |s.calls|
  {
    var c := CodeAt(s, t).call;
    SumAt(s.progs, s.threads[t].pc.fiber, OfProg(TimeoutOf(c)));
    var i := SumPositive(s.log, ArmedFor(c));
    assert EventKnown(s, s.log[i]);
  }

  lemma TimeoutSetCalls(s: Sys, t: nat)
    requires AtTimeoutSet(s, t) && CodeAt(s, t).call < |s.calls|
    ensures var s', f := DoRunTimeoutSet(s, t), s.threads[t].pc.fiber;
            && CallsGrow(s, s') && f < |s'.progs| && Known(s', s'.progs[f])
            && s.log <= s'.log && forall i :: |s.log| <= i < |s'.log| ==> EventKnown(s', s'.log[i])
  {
  }

  lemma StmtCalls(s: Sys, t: nat, stmt: Stmt)
    requires Inv(s) && CallsKnown(s) && CanRun(s, t, stmt) && Runs(s, t)
    ensures var s', f := DoStmt(s, t, stmt), s.threads[t].pc.fiber;
            && CallsGrow(s, s') && f < |s'.progs| && Known(s', s'.progs[f])
            && s.log <= s'.log && forall i :: |s.log| <= i < |s'.log| ==> EventKnown(s', s'.log[i])
  {
    assert Known(s, CodeAt(s, t));
    if UsesFds(stmt) {
      FdStmtCalls(s, t, stmt);
      FdStmtQuiet(s, t, stmt);
    } else if stmt.ArmTimeout? {
      ArmTimeoutCalls(s, t, stmt.wanted);
    } else if stmt.CheckTimeout? {
      CheckTimeoutCalls(s, t);
    } else if stmt.RunTimeoutSet? {
      assert CallOk(s, CodeAt(s, t).call);
      RunningTimeoutIsKnown(s, t);
      TimeoutSetCalls(s, t);
    } else {
      PlainStmtCalls(s, t, stmt);
      PlainStmtQuiet(s, t, stmt);
    }
  }

  lemma StmtKeepsKnown(s: Sys, t: nat, stmt: Stmt)
    requires Inv(s) && CallsKnown(s) && CanRun(s, t, stmt)
    ensures CallsKnown(DoStmt(s, t, stmt))
  {
    StmtCounts(s, t, stmt, TimeoutOf(0));
    StmtCalls(s, t, stmt);
    KnownStep(s, DoStmt(s, t, stmt), s.threads[t].pc.fiber);
  }

  lemma {:induction false} RunKeepsKnown(s: Sys, run: seq<Action>)
    requires Inv(s) && CallsKnown(s) && ValidRun(s, run)
    ensures CallsKnown(After(s, run))
    decreases |run|
  {
    if run != [] {
      StepKeepsInv(s, run[0]);
      StepKeepsKnown(s, run[0]);
      RunKeepsKnown(Do(s, run[0]), run[1..]);
    }
  }

  lemma StepKeepsKnown(s: Sys, a: Action)
    requires Inv(s) && CallsKnown(s) && Can(s, a)
    ensures CallsKnown(Do(s, a))
  {
    match a
    case Loop(t, move) => MoveKeepsKnown(s, t, move);
    case Code(t, stmt) => StmtKeepsKnown(s, t, stmt);
    case Outside(deed) => DeedKeepsKnown(s, deed);
  }

  lemma ReachableKnown(s: Sys)
    requires Reachable(s)
    ensures CallsKnown(s)
  {
    var n: nat, run :| ValidRun(InitialSys(n), run) && After(InitialSys(n), run) == s;
    InitialInv(n);
    RunKeepsKnown(InitialSys(n), run);
  }

  /** After its wait a call returns ETIMEDOUT if and only if a timer callback holding its own
      timer_info has run; otherwise it makes the raw call again. */
  lemma TimedOutExactly(s: Sys, t: nat)
    requires Reachable(s) && AtCheck(s, t)
    ensures var s', call, f := DoCheckTimeout(s, t), CodeAt(s, t).call, s.threads[t].pc.fiber;
            if TimerRan(call) in s.log then s'.log == s.log + [TimedOut(call)] && s'.progs == s.progs[f := Free]
            else s'.log == s.log && f < |s'.progs| && s'.progs[f].CallRetry?
  {
    ReachableInv(s);
    ReachableKnown(s);
    MarkIsExact(s, CodeAt(s, t).call);
  }

  lemma MarkIsExact(s: Sys, c: nat)
    requires CallsKnown(s) && CallOk(s, c)
    ensures CallOf(s, c).cancelled <==> TimerRan(c) in s.log
  {
    if TimerRan(c) in s.log {
      var i :| 0 <= i < |s.log| && s.log[i] == TimerRan(c);
      assert EventKnown(s, s.log[i]);
    }
  }

  // ----- triggering queues the waiting task

  /** The tasks of these slots, and nothing else, are put at the end of the queue, for any thread... */
  ghost predicate QueueGrows(q: seq<Entry>, q': seq<Entry>, slots: seq<Slot>, tag: nat)
  {
    && |q'| == |q| + |slots| && q'[..|q|] == q
    && forall i :: 0 <= i < |slots| ==>
         slots[i].Armed() && q'[|q| + i] == Entry(slots[i].TaskOf(), ANY_THREAD, tag + i)
  }

  /** ...and their registrations are logged as triggered. */
  predicate LogGrows(log: seq<Event>, log': seq<Event>, slots: seq<Slot>)
  {
    && |log'| == |log| + |slots| && log'[..|log|] == log
    && forall i :: 0 <= i < |slots| ==> log'[|log| + i] == Woke(slots[i].reg)
  }

  ghost predicate QueuesExactly(s: Sys, s': Sys, slots: seq<Slot>)
  {
    QueueGrows(s.queue, s'.queue, slots, s.nextTag) && LogGrows(s.log, s'.log, slots)
  }

  lemma AppendedEntries(q: seq<Entry>, slots: seq<Slot>, tag: nat)
    requires forall i :: 0 <= i < |slots| ==> slots[i].Armed()
    ensures QueueGrows(q, q + Entries(TasksOf(slots), tag), slots, tag)
  {
  }

  lemma AbsorbQueue(s: Sys, o: Outcome)
    requires o.Done?
    ensures Absorb(s, o).queue == s.queue + Entries(TasksOf(o.woken), s.nextTag)
  {
  }

  lemma AbsorbLog(s: Sys, o: Outcome)
    requires o.Done?
    ensures LogGrows(s.log, Absorb(s, o).log, o.woken)
  {
  }

  lemma WakeQueues(s: Sys, o: Outcome)
    requires o.Done? && forall i :: 0 <= i < |o.woken| ==> o.woken[i].Armed()
    ensures QueuesExactly(s, Absorb(s, o), o.woken)
  {
    AbsorbQueue(s, o);
    AppendedEntries(s.queue, o.woken, s.nextTag);
    AbsorbLog(s, o);
  }

  lemma DispatchQueues(s: Sys, fd: nat, r: Report)
    requires IoInv(s.io) && fd < |s.io.fds| && Dispatch(s.io, fd, r, false).Done?
    ensures var s', o := Absorb(s, Dispatch(s.io, fd, r, false)), Dispatch(s.io, fd, r, false);
            QueuesExactly(s, s', o.woken) && s'.io == o.io
  {
    DispatchKeeps(s.io, fd, r, false, OfReg(0));
    assert FdArmed(s.io.fds[fd]);
    WakeQueues(s, Dispatch(s.io, fd, r, false));
  }

  /** A report of an event that is registered, if it does not hit the assertion and the kernel agrees, queues exactly
      what is registered for the reported events, READ first, and clears their bits; an error or hang-up counts as
      both. */
  lemma ReadinessQueues(s: Sys, t: nat, fd: nat, r: Report)
    requires Reachable(s) && CanHappen(s, Deed.Report(t, fd, r, false))
    requires var et := s.io.fds[fd].et;
             || ((r.readable || r.errorOrHangup) && et.read)
             || ((r.writable || r.errorOrHangup) && et.write)
    ensures var s', e := DoDeed(s, Deed.Report(t, fd, r, false)), s.io.fds[fd];
            var rd, wr := r.readable || r.errorOrHangup, r.writable || r.errorOrHangup;
            && QueuesExactly(s, s', (if rd then [e.read] else []) + (if wr then [e.write] else []))
            && Drained(s.io.fds, s'.io.fds, fd, rd, wr)
  {
    ReachableInv(s);
    DispatchKeeps(s.io, fd, r, false, OfReg(0));
    DispatchQueues(s, fd, r);
  }

  /** A report of events none of which is registered does nothing. */
  lemma UnregisteredReportDoesNothing(s: Sys, t: nat, fd: nat, r: Report, fault: bool)
    requires Reachable(s) && CanHappen(s, Deed.Report(t, fd, r, fault))
    requires var et := s.io.fds[fd].et;
             !((r.readable || r.errorOrHangup) && et.read) && !((r.writable || r.errorOrHangup) && et.write)
    ensures DoDeed(s, Deed.Report(t, fd, r, fault)) == s
  {
    ReachableInv(s);
    DispatchKeeps(s.io, fd, r, fault, OfReg(0));
  }

  /** cancelEvent, when the kernel agrees, queues exactly what waits for the event and clears the bit. */
  lemma CancelQueues(s: Sys, fd: nat, ev: EventType)
    requires IoInv(s.io) && RegisteredAt(s.io, fd, ev)
    ensures var s' := Absorb(s, CancelEvent(s.io, fd, ev, false));
            QueuesExactly(s, s', [s.io.fds[fd].Get(ev)]) && !RegisteredAt(s'.io, fd, ev)
  {
    assert FdArmed(s.io.fds[fd]);
    CancelEventKeeps(s.io, fd, ev, false, OfReg(0));
    WakeQueues(s, CancelEvent(s.io, fd, ev, false));
  }

  /** A timeout callback that has set `cancelled` and finds its event registered queues exactly what is
      registered there: a client's callback, or a fiber that waits for this very event. */
  lemma TimeoutQueuesTheWaiter(s: Sys, t: nat)
    requires Reachable(s) && AtTimeoutFire(s, t) && RegisteredAt(s.io, CodeAt(s, t).fd, CodeAt(s, t).ev)
    ensures var TimeoutFire(_, fd, ev) := CodeAt(s, t);
            var s', slot := DoRunTimeoutFire(s, t, false), s.io.fds[fd].Get(ev);
            && QueuesExactly(s, s', [slot]) && !RegisteredAt(s'.io, fd, ev)
            && (slot.cb.Some? ==> slot.cb.value.Client?)
            && (slot.fiber.Some? ==> slot.fiber.value < |s.progs| && WaitsFor(s.progs[slot.fiber.value], fd, ev))
  {
    var TimeoutFire(_, fd, ev) := CodeAt(s, t);
    ReachableInv(s);
    SlotsHoldWaiters(s, fd, ev);
    CancelQueues(s, fd, ev);
  }
}
