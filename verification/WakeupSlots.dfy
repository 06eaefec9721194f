/** Who is in the fd slots: client callbacks, and fibers whose code waits for exactly that event. */
module WakeupSlots {
  import opened Counting
  import opened Tasks
  import opened FdEvents
  import opened FdEventProofs
  import opened Wakeup
  import opened WakeupInvariant
  import opened WakeupFibers
  import opened WakeupTasks
  import opened WakeupHistory
  import opened WakeupTheorems

  /** The code, client's or a hooked call's, has registered its fiber for this event. */
  predicate WaitsFor(prog: Prog, fd: nat, ev: EventType)
  {
    prog == Registered(ForEvent(fd, ev)) || (prog.CallWait? && prog.fd == fd && prog.ev == ev)
  }

  predicate SlotOk(progs: seq<Prog>, slot: Slot, fd: nat, ev: EventType)
  {
    && (slot.cb.Some? ==> slot.cb.value.Client?)
    && (slot.fiber.Some? ==> slot.fiber.value < |progs| && WaitsFor(progs[slot.fiber.value], fd, ev))
  }

  predicate RegisteredAt(io: Io, fd: nat, ev: EventType) { fd < |io.fds| && io.fds[fd].et.Has(ev) }

  ghost predicate SlotsOk(s: Sys)
  {
    forall fd: nat, ev :: RegisteredAt(s.io, fd, ev) ==> SlotOk(s.progs, s.io.fds[fd].Get(ev), fd, ev)
  }

  // ----- fd operations

  /** What is registered afterwards was registered before, unchanged. */
  ghost predicate OnlyRemoves(io: Io, io': Io)
  {
    forall fd: nat, ev :: RegisteredAt(io', fd, ev) ==>
        RegisteredAt(io, fd, ev) && io'.fds[fd].Get(ev) == io.fds[fd].Get(ev)
  }

  lemma TriggerRemoves(o: Outcome, fd: nat, ev: EventType)
    requires o.Done? && Trigger(o, fd, ev).Done?
    ensures OnlyRemoves(o.io, Trigger(o, fd, ev).io)
  {
  }

  lemma DelRemoves(io: Io, fd: nat, ev: EventType, fault: bool)
    ensures var o := DelEvent(io, fd, ev, fault);
            !o.Aborted? ==> OnlyRemoves(io, o.io)
  {
  }

  lemma CancelRemoves(io: Io, fd: nat, ev: EventType, fault: bool)
    ensures var o := CancelEvent(io, fd, ev, fault);
            !o.Aborted? ==> OnlyRemoves(io, o.io)
  {
    var o := CancelEvent(io, fd, ev, fault);
    if o.Done? {
      var rest := io.fds[fd].et.Without(ev);
      var k := EpollCtl(io.kernel, if rest.IsNone() then Del else Mod, fd, rest, fault).value;
      TriggerRemoves(Done(io.(kernel := k), []), fd, ev);
    }
  }

  /** READ, then WRITE. */
  lemma TriggerBothRemoves(io: Io, fd: nat, m: Mask)
    ensures var a := if m.read then Trigger(Done(io, []), fd, Read) else Done(io, []);
            var o := if m.write then Trigger(a, fd, Write) else a;
            o.Done? ==> OnlyRemoves(io, o.io)
  {
    var a := if m.read then Trigger(Done(io, []), fd, Read) else Done(io, []);
    if a.Done? {
      if m.read {
        TriggerRemoves(Done(io, []), fd, Read);
      }
      if m.write && Trigger(a, fd, Write).Done? {
        TriggerRemoves(a, fd, Write);
      }
    }
  }

  lemma CancelAllRemoves(io: Io, fd: nat, fault: bool)
    ensures var o := CancelAll(io, fd, fault);
            !o.Aborted? ==> OnlyRemoves(io, o.io)
  {
    if fd < |io.fds| && EpollCtl(io.kernel, Del, fd, Mask(false, false), fault).Some? {
      var k := EpollCtl(io.kernel, Del, fd, Mask(false, false), fault).value;
      TriggerBothRemoves(io.(kernel := k), fd, io.fds[fd].et);
    }
  }

  lemma DispatchRemoves(io: Io, fd: nat, r: Report, fault: bool)
    ensures var o := Dispatch(io, fd, r, fault);
            !o.Aborted? ==> OnlyRemoves(io, o.io)
  {
    if fd < |io.fds| {
      var left := io.fds[fd].et.Minus(r.Real());
      var k := EpollCtl(io.kernel, if left.IsNone() then Del else Mod, fd, left, fault);
      if k.Some? {
        TriggerBothRemoves(io.(kernel := k.value), fd, r.Real());
      }
    }
  }

  /** A successful addEvent changes one slot. */
  lemma AddAdds(io: Io, fd: nat, ev: EventType, who: Task, fault: bool)
    requires IoInv(io) && AddEvent(io, fd, ev, who, fault).Done?
    ensures var io' := AddEvent(io, fd, ev, who, fault).io;
            && RegisteredAt(io', fd, ev) && io'.fds[fd].Get(ev).Armed() && io'.fds[fd].Get(ev).TaskOf() == who
            && forall g: nat, e :: RegisteredAt(io', g, e) && !(g == fd && e == ev) ==>
                 RegisteredAt(io, g, e) && io'.fds[g].Get(e) == io.fds[g].Get(e)
  {
    AddEventSlot(io, fd, ev, who, fault);
    GrowRemoves(io, fd);
    GrowKeeps(io, fd);
  }

  lemma GrowRemoves(io: Io, fd: nat)
    ensures OnlyRemoves(io, Grow(io, fd))
  {
  }

  lemma RefusedAddRemoves(io: Io, fd: nat, ev: EventType, who: Task, fault: bool)
    requires AddEvent(io, fd, ev, who, fault).Refused?
    ensures OnlyRemoves(io, AddEvent(io, fd, ev, who, fault).io)
  {
    GrowRemoves(io, fd);
  }

  // ----- steps

  /** A fiber in a slot is not one whose code moves. */
  lemma SlotsStay(s: Sys, s': Sys, f: nat)
    requires SlotsOk(s) && OnlyRemoves(s.io, s'.io) && |s.progs| <= |s'.progs|
    requires forall g :: 0 <= g < |s.progs| && g != f ==> s'.progs[g] == s.progs[g]
    requires f < |s.progs| ==> Weight(s.io, OfSlot(WakeOf(f))) == 0 || s'.progs[f] == s.progs[f]
    requires IoInv(s.io)
    ensures SlotsOk(s')
  {
    forall fd: nat, ev | RegisteredAt(s'.io, fd, ev) ensures SlotOk(s'.progs, s'.io.fds[fd].Get(ev), fd, ev) {
      assert RegisteredAt(s.io, fd, ev) && SlotOk(s.progs, s.io.fds[fd].Get(ev), fd, ev);
      if s.io.fds[fd].Get(ev).fiber == Some(f) {
        SlotWeighs(s.io, fd, ev, f);
      }
    }
  }

  lemma SlotWeighs(io: Io, fd: nat, ev: EventType, f: nat)
    requires IoInv(io) && RegisteredAt(io, fd, ev) && io.fds[fd].Get(ev).fiber == Some(f)
    ensures Weight(io, OfSlot(WakeOf(f))) >= 1
  {
    assert FdArmed(io.fds[fd]);
    SumAt(io.fds, fd, FdEvents.Registered(OfSlot(WakeOf(f))));
  }

  ghost predicate InSlot(s: Sys, f: nat)
  {
    exists fd: nat, ev :: RegisteredAt(s.io, fd, ev) && s.io.fds[fd].Get(ev).fiber == Some(f)
  }

  lemma WeightIsInSlot(s: Sys, f: nat)
    requires IoInv(s.io) && SlotsOk(s) && Weight(s.io, OfSlot(WakeOf(f))) >= 1
    ensures InSlot(s, f)
  {
    var fd := SumPositive(s.io.fds, FdEvents.Registered(OfSlot(WakeOf(f))));
    var e := s.io.fds[fd];
    var ev := if e.et.read && SlotWeight(WakeOf(f), e.read) > 0 then Read else Write;
    assert RegisteredAt(s.io, fd, ev) && SlotOk(s.progs, e.Get(ev), fd, ev);
    assert e.Get(ev).fiber == Some(f);
  }

  /** Code that is not waiting has its fiber in no slot. */
  lemma {:induction false} NotWaitingNotInSlots(s: Sys, fds: seq<FdEvent>, n: nat, f: nat)
    requires SlotsOk(s) && IoInv(s.io) && n <= |s.io.fds| && fds == s.io.fds[n..]
    requires f < |s.progs| && !s.progs[f].Waiting()
    ensures Sum(fds, FdEvents.Registered(OfSlot(WakeOf(f)))) == 0
    decreases |s.io.fds| - n
  {
    if fds != [] {
      NotWaitingNotInSlots(s, fds[1..], n + 1, f);
      assert FdArmed(s.io.fds[n]);
      assert RegisteredAt(s.io, n, Read) ==> SlotOk(s.progs, s.io.fds[n].Get(Read), n, Read);
      assert RegisteredAt(s.io, n, Write) ==> SlotOk(s.progs, s.io.fds[n].Get(Write), n, Write);
    }
  }

  lemma MoveKeepsSlotsOk(s: Sys, t: nat, move: Move)
    requires Inv(s) && SlotsOk(s) && CanMove(s, t, move) && !move.Switch?
    ensures SlotsOk(DoMove(s, t, move))
  {
    MoveQuiet(s, t, move);
    MoveShape(s, t, move);
    SlotsStay(s, DoMove(s, t, move), |s.progs|);
  }

  lemma SwapInKeepsSlotsOk(s: Sys, t: nat, f: nat)
    requires Inv(s) && SlotsOk(s) && AboutToRun(s, t, f)
    ensures SlotsOk(DoSwitch(s, t))
  {
    AboutToRunIsParked(s, t, f);
    SwitchShape(s, t, f);
    MoveQuiet(s, t, Switch);
    HeldNotInSlots(s, t, f);
    SlotsStay(s, DoSwitch(s, t), f);
  }

  lemma HeldNotInSlots(s: Sys, t: nat, f: nat)
    requires FiberOk(s, f) && t < |s.threads| && ThreadWeight(WakeOf(f), s.threads[t]) == 1
    ensures Weight(s.io, OfSlot(WakeOf(f))) == 0
  {
    SumAt(s.threads, t, OfThread(WakeOf(f)));
  }

  lemma SwitchOtherKeepsSlotsOk(s: Sys, t: nat)
    requires Inv(s) && SlotsOk(s) && AtPicked(s, t)
    requires RunsNoOldFiber(s, t)
    ensures SlotsOk(DoSwitch(s, t))
  {
    MoveQuiet(s, t, Switch);
    SwitchOtherProgs(s, t);
    SlotsStay(s, DoSwitch(s, t), |s.progs|);
  }

  lemma SwitchOtherProgs(s: Sys, t: nat)
    requires |s.states| == |s.progs| && AtPicked(s, t)
    requires RunsNoOldFiber(s, t)
    ensures s.progs <= DoSwitch(s, t).progs
  {
  }

  lemma SwitchKeepsSlotsOk(s: Sys, t: nat)
    requires Inv(s) && SlotsOk(s) && AtPicked(s, t)
    ensures SlotsOk(DoSwitch(s, t))
  {
    var th := s.threads[t];
    match th.pc.entry.task
    case FiberTask(f) =>
      ThreadsBound(s, t, WakeOf(f));
      assert FiberOk(s, f);
      if StateOf(s.states, f).Finished() {
        SwitchOtherKeepsSlotsOk(s, t);
      } else {
        SwapInKeepsSlotsOk(s, t, f);
      }
    case CbTask(_) =>
      if th.cbFiber.None? {
        SwitchOtherKeepsSlotsOk(s, t);
      } else {
        assert ThreadOk(s, th);
        SwapInKeepsSlotsOk(s, t, th.cbFiber.value);
      }
  }

  lemma DeedRemoves(s: Sys, deed: Deed)
    requires IoInv(s.io) && CanHappen(s, deed)
    ensures OnlyRemoves(s.io, DeedOutcome(s, deed).io)
  {
    DeedRegEffect(s, deed, 0);
    if deed.DropEvent? {
      DelRemoves(s.io, deed.fd, deed.ev, deed.fault);
    } else if deed.Cancel? {
      CancelRemoves(s.io, deed.fd, deed.ev, deed.fault);
    } else if deed.CancelFd? {
      CancelAllRemoves(s.io, deed.fd, deed.fault);
    } else if deed.Report? {
      DispatchRemoves(s.io, deed.fd, deed.report, deed.fault);
    }
  }

  lemma DeedKeepsSlotsOk(s: Sys, deed: Deed)
    requires Inv(s) && SlotsOk(s) && CanHappen(s, deed)
    ensures SlotsOk(DoDeed(s, deed))
  {
    DeedShape(s, deed);
    DeedIsOutcome(s, deed);
    DeedRegEffect(s, deed, 0);
    DeedRemoves(s, deed);
    SlotsStay(s, DoDeed(s, deed), |s.progs|);
  }

  /** A registration by the code of `f`, for whom it then waits. */
  lemma AddKeepsSlotsOk(s: Sys, s': Sys, f: nat, fd: nat, ev: EventType, who: Task, fault: bool)
    requires Inv(s) && SlotsOk(s) && f < |s.progs| == |s'.progs| && !s.progs[f].Waiting()
    requires AddEvent(s.io, fd, ev, who, fault).Done? && s'.io == AddEvent(s.io, fd, ev, who, fault).io
    requires forall g :: 0 <= g < |s.progs| && g != f ==> s'.progs[g] == s.progs[g]
    requires if who.CbTask? then who.cb.Client? else who.fiber == f && WaitsFor(s'.progs[f], fd, ev)
    ensures SlotsOk(s')
  {
    AddAdds(s.io, fd, ev, who, fault);
    forall g: nat, e | RegisteredAt(s'.io, g, e) ensures SlotOk(s'.progs, s'.io.fds[g].Get(e), g, e) {
      if !(g == fd && e == ev) {
        assert RegisteredAt(s.io, g, e) && SlotOk(s.progs, s.io.fds[g].Get(e), g, e);
      }
    }
  }

  /** Code that adds no registration. */
  lemma OtherStmtKeepsSlotsOk(s: Sys, t: nat, s': Sys)
    requires Inv(s) && SlotsOk(s) && Runs(s, t) && !CodeAt(s, t).Waiting()
    requires OnlyRemoves(s.io, s'.io) && |s'.progs| == |s.progs|
    requires forall g :: 0 <= g < |s.progs| && g != s.threads[t].pc.fiber ==> s'.progs[g] == s.progs[g]
    ensures SlotsOk(s')
  {
    NotWaitingNotInSlots(s, s.io.fds, 0, s.threads[t].pc.fiber);
    SlotsStay(s, s', s.threads[t].pc.fiber);
  }

  /** The registration a statement makes. */
  lemma AddStmtKeepsSlotsOk(s: Sys, t: nat, stmt: Stmt)
    requires Inv(s) && SlotsOk(s) && CanRun(s, t, stmt) && UsesFds(stmt) && !stmt.RunTimeoutFire?
      && StmtOutcome(s, t, stmt).Done?
    ensures SlotsOk(DoStmt(s, t, stmt))
  {
    var s', f := DoStmt(s, t, stmt), s.threads[t].pc.fiber;
    StmtCounts(s, t, stmt, TimeoutOf(0));
    StmtIsOutcome(s, t, stmt);
    match stmt
    case RegisterSelf(fd, ev, fault) => AddKeepsSlotsOk(s, s', f, fd, ev, FiberTask(f), fault);
    case RegisterCb(fd, ev, id, fault) => AddKeepsSlotsOk(s, s', f, fd, ev, CbTask(Client(id)), fault);
    case AddWait(fault) => AddKeepsSlotsOk(s, s', f, CodeAt(s, t).fd, CodeAt(s, t).ev, FiberTask(f), fault);
  }

  lemma StmtRemoves(s: Sys, t: nat, stmt: Stmt)
    requires IoInv(s.io) && CanRun(s, t, stmt) && UsesFds(stmt)
      && (stmt.RunTimeoutFire? || StmtOutcome(s, t, stmt).Refused?)
    ensures OnlyRemoves(s.io, StmtOutcome(s, t, stmt).io)
  {
    var f, code := s.threads[t].pc.fiber, CodeAt(s, t);
    StmtRegEffect(s, t, stmt, 0);
    match stmt
    case RegisterSelf(fd, ev, fault) => RefusedAddRemoves(s.io, fd, ev, FiberTask(f), fault);
    case RegisterCb(fd, ev, id, fault) => RefusedAddRemoves(s.io, fd, ev, CbTask(Client(id)), fault);
    case AddWait(fault) => RefusedAddRemoves(s.io, code.fd, code.ev, FiberTask(f), fault);
    case RunTimeoutFire(fault) => CancelRemoves(s.io, code.fd, code.ev, fault);
  }

  lemma StmtKeepsSlotsOk(s: Sys, t: nat, stmt: Stmt)
    requires Inv(s) && SlotsOk(s) && CanRun(s, t, stmt)
    ensures SlotsOk(DoStmt(s, t, stmt))
  {
    StmtCounts(s, t, stmt, TimeoutOf(0));
    if UsesFds(stmt) {
      StmtIsOutcome(s, t, stmt);
      StmtRegEffect(s, t, stmt, 0);
      if !stmt.RunTimeoutFire? && StmtOutcome(s, t, stmt).Done? {
        AddStmtKeepsSlotsOk(s, t, stmt);
      } else {
        StmtRemoves(s, t, stmt);
        OtherStmtKeepsSlotsOk(s, t, DoStmt(s, t, stmt));
      }
    } else {
      if ForTimeouts(stmt) {
        TimeoutStmtQuiet(s, t, stmt);
      } else {
        PlainStmtQuiet(s, t, stmt);
      }
      OtherStmtKeepsSlotsOk(s, t, DoStmt(s, t, stmt));
    }
  }

  lemma StepKeepsSlotsOk(s: Sys, a: Action)
    requires Inv(s) && SlotsOk(s) && Can(s, a)
    ensures SlotsOk(Do(s, a))
  {
    match a
    case Loop(t, move) =>
      if move.Switch? {
        SwitchKeepsSlotsOk(s, t);
      } else {
        MoveKeepsSlotsOk(s, t, move);
      }
    case Code(t, stmt) => StmtKeepsSlotsOk(s, t, stmt);
    case Outside(deed) => DeedKeepsSlotsOk(s, deed);
  }

  lemma {:induction false} RunKeepsSlotsOk(s: Sys, run: seq<Action>)
    requires Inv(s) && SlotsOk(s) && ValidRun(s, run)
    ensures SlotsOk(After(s, run))
    decreases |run|
  {
    if run != [] {
      StepKeepsInv(s, run[0]);
      StepKeepsSlotsOk(s, run[0]);
      RunKeepsSlotsOk(Do(s, run[0]), run[1..]);
    }
  }

  lemma InitialSlotsOk(n: nat)
    ensures SlotsOk(InitialSys(n))
  {
  }

  /** In every reachable state a registered slot holds a client's callback, or a fiber whose code is
      waiting for exactly this event. */
  lemma SlotsHoldWaiters(s: Sys, fd: nat, ev: EventType)
    requires Reachable(s) && RegisteredAt(s.io, fd, ev)
    ensures SlotOk(s.progs, s.io.fds[fd].Get(ev), fd, ev)
  {
    ReachableSlotsOk(s);
  }

  lemma ReachableSlotsOk(s: Sys)
    requires Reachable(s)
    ensures SlotsOk(s)
  {
    var n: nat, run :| ValidRun(InitialSys(n), run) && After(InitialSys(n), run) == s;
    InitialInv(n);
    InitialSlotsOk(n);
    RunKeepsSlotsOk(InitialSys(n), run);
  }
}
