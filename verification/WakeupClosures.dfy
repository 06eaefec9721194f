/** What the callbacks on their way speak of: a sleep's callback of a fiber that is still asleep, a timeout's
    of a call that exists, with the call's own fd and event. */
module WakeupClosures {
  import opened Counting
  import opened Tasks
  import opened FdEvents
  import opened FdEventProofs
  import opened Wakeup
  import opened WakeupInvariant
  import opened WakeupFibers
  import opened WakeupTasks
  import opened WakeupHistory
  import opened WakeupTheorems
  import opened WakeupSlots
  import opened WakeupNoLoss

  /** A fiber that has set a timer to wake it and has not been resumed. */
  predicate Asleep(s: Sys, g: nat) { g < |s.progs| && s.progs[g] == Registered(ForTimer) }

  predicate ArgsOf(s: Sys, c: nat, fd: nat, ev: EventType)
  {
    c < |s.calls| && s.calls[c].fd == fd && s.calls[c].ev == ev
  }

  predicate ClosureOk(s: Sys, c: Closure)
  {
    match c
    case WakeFiber(g) => Asleep(s, g)
    case TimeoutCall(call, fd, ev) => ArgsOf(s, call, fd, ev)
    case Client(_) => true
  }

  predicate TaskOk(s: Sys, task: Task) { task.CbTask? ==> ClosureOk(s, task.cb) }

  predicate PcClosuresOk(s: Sys, pc: Pc)
  {
    && (pc.Picked? ==> TaskOk(s, pc.entry.task))
    && (pc.Idle? ==> forall i :: 0 <= i < |pc.cbs| ==> ClosureOk(s, pc.cbs[i]))
  }

  /** The code of a call or of its callback works on the call's own fd and event. */
  predicate CodeOk(s: Sys, prog: Prog)
  {
    match prog
    case Free => true
    case Registered(_) => true
    case WakeOther(g) => Asleep(s, g)
    case TimeoutLock(c, fd, ev) => ArgsOf(s, c, fd, ev)
    case TimeoutCheck(c, fd, ev) => ArgsOf(s, c, fd, ev)
    case TimeoutSet(c, fd, ev) => ArgsOf(s, c, fd, ev)
    case TimeoutFire(c, fd, ev) => ArgsOf(s, c, fd, ev)
    case CallArm(c, fd, ev) => ArgsOf(s, c, fd, ev)
    case CallAdd(c, fd, ev, _) => ArgsOf(s, c, fd, ev)
    case CallWait(c, fd, ev, _) => ArgsOf(s, c, fd, ev)
    case CallWoken(c, fd, ev, _) => ArgsOf(s, c, fd, ev)
    case CallCheck(c, fd, ev) => ArgsOf(s, c, fd, ev)
    case CallRetry(c, fd, ev) => ArgsOf(s, c, fd, ev)
    case CallFailed(c, _) => true
  }

  ghost predicate TimersOk(s: Sys)
  {
    forall i :: 0 <= i < |s.timers| && s.timers[i].Some? ==> ClosureOk(s, s.timers[i].value)
  }

  ghost predicate QueueOk(s: Sys) { forall i :: 0 <= i < |s.queue| ==> TaskOk(s, s.queue[i].task) }

  ghost predicate PcsOk(s: Sys) { forall t :: 0 <= t < |s.threads| ==> PcClosuresOk(s, s.threads[t].pc) }

  ghost predicate CodesOk(s: Sys) { forall f :: 0 <= f < |s.progs| ==> CodeOk(s, s.progs[f]) }

  ghost predicate ClosuresOk(s: Sys) { TimersOk(s) && QueueOk(s) && PcsOk(s) && CodesOk(s) }

  // ----- what stays true of a closure

  /** Calls are only added and keep their arguments. */
  predicate ArgsStay(s: Sys, s': Sys)
  {
    && |s.calls| <= |s'.calls|
    && forall c :: 0 <= c < |s.calls| ==> s'.calls[c].fd == s.calls[c].fd && s'.calls[c].ev == s.calls[c].ev
  }

  /** Sleepers stay asleep, all but `f`. */
  predicate SleepersStay(s: Sys, s': Sys, f: nat)
  {
    |s.progs| <= |s'.progs| && forall g :: 0 <= g < |s.progs| && g != f && Asleep(s, g) ==> Asleep(s', g)
  }

  /** The closure does not wake `f`. */
  predicate Spares(c: Closure, f: nat) { c != WakeFiber(f) }

  lemma ClosureStays(s: Sys, s': Sys, f: nat, c: Closure)
    requires ClosureOk(s, c) && ArgsStay(s, s') && SleepersStay(s, s', f) && Spares(c, f)
    ensures ClosureOk(s', c)
  {
  }

  /** No callback on its way wakes `f`. */
  ghost predicate NobodyWakes(s: Sys, f: nat)
  {
    && (forall i :: 0 <= i < |s.timers| ==> s.timers[i] != Some(WakeFiber(f)))
    && (forall i :: 0 <= i < |s.queue| ==> s.queue[i].task != CbTask(WakeFiber(f)))
    && (forall t :: 0 <= t < |s.threads| ==> PcSpares(s.threads[t].pc, f))
    && (forall g :: 0 <= g < |s.progs| ==> s.progs[g] != WakeOther(f))
  }

  predicate PcSpares(pc: Pc, f: nat)
  {
    && (pc.Picked? ==> pc.entry.task != CbTask(WakeFiber(f)))
    && (pc.Idle? ==> forall i :: 0 <= i < |pc.cbs| ==> pc.cbs[i] != WakeFiber(f))
  }

  /** A fiber awake is waked by nobody: it is no sleeper. */
  lemma AwakeIsSpared(s: Sys, f: nat)
    requires ClosuresOk(s) && !Asleep(s, f)
    ensures NobodyWakes(s, f)
  {
    forall t | 0 <= t < |s.threads| ensures PcSpares(s.threads[t].pc, f) {
      assert PcClosuresOk(s, s.threads[t].pc);
    }
    forall g | 0 <= g < |s.progs| ensures s.progs[g] != WakeOther(f) {
      assert CodeOk(s, s.progs[g]);
    }
    forall i | 0 <= i < |s.queue| ensures s.queue[i].task != CbTask(WakeFiber(f)) {
      assert TaskOk(s, s.queue[i].task);
    }
  }

  /** So is one whose only wake-up a thread holds as a task of the fiber's own, or as its cached fiber. */
  lemma HeldIsSpared(s: Sys, t: nat, f: nat)
    requires FiberOk(s, f) && t < |s.threads| && ThreadWeight(WakeOf(f), s.threads[t]) == 1
      && PcSpares(s.threads[t].pc, f)
    ensures NobodyWakes(s, f)
  {
    var p := WakeOf(f);
    SumAt(s.threads, t, OfThread(p));
    forall i | 0 <= i < |s.timers| ensures s.timers[i] != Some(WakeFiber(f)) {
      SumAt(s.timers, i, OfTimer(p));
    }
    forall i | 0 <= i < |s.queue| ensures s.queue[i].task != CbTask(WakeFiber(f)) {
      SumAt(s.queue, i, OfEntry(p));
    }
    forall g | 0 <= g < |s.progs| ensures s.progs[g] != WakeOther(f) {
      SumAt(s.progs, g, OfProg(p));
    }
    forall u | 0 <= u < |s.threads| ensures PcSpares(s.threads[u].pc, f) {
      if u != t {
        OnlyOneHolder(s, f, t, u);
        NoWeightSpares(s.threads[u], f);
      }
    }
  }

  lemma NoWeightSpares(th: Thread, f: nat)
    requires ThreadWeight(WakeOf(f), th) == 0
    ensures PcSpares(th.pc, f)
  {
    if th.pc.Idle? {
      forall i | 0 <= i < |th.pc.cbs| ensures th.pc.cbs[i] != WakeFiber(f) {
        SumAt(th.pc.cbs, i, OfClosure(WakeOf(f)));
      }
    }
  }

  // ----- one step: the code of at most one fiber moves

  /** What the step leaves where it was is still all right; `t` is the thread that moved, if any. */
  lemma RestStays(s: Sys, s': Sys, f: nat, t: nat)
    requires ClosuresOk(s) && ArgsStay(s, s') && SleepersStay(s, s', f) && NobodyWakes(s, f)
    requires |s'.threads| == |s.threads| && forall u :: 0 <= u < |s.threads| && u != t ==>
      s'.threads[u].pc == s.threads[u].pc
    requires forall g :: 0 <= g < |s.progs| && g != f ==> s'.progs[g] == s.progs[g]
    ensures forall i :: 0 <= i < |s.timers| && s.timers[i].Some? ==> ClosureOk(s', s.timers[i].value)
    ensures forall i :: 0 <= i < |s.queue| ==> TaskOk(s', s.queue[i].task)
    ensures forall u :: 0 <= u < |s.threads| ==> PcClosuresOk(s', s.threads[u].pc)
    ensures forall g :: 0 <= g < |s.progs| && g != f ==> CodeOk(s', s'.progs[g])
  {
    forall u | 0 <= u < |s.threads| ensures PcClosuresOk(s', s.threads[u].pc) {
      PcStays(s, s', f, s.threads[u].pc);
    }
    forall i | 0 <= i < |s.queue| ensures TaskOk(s', s.queue[i].task) {
      assert TaskOk(s, s.queue[i].task);
    }
    forall g | 0 <= g < |s.progs| && g != f ensures CodeOk(s', s'.progs[g]) {
      CodeStays(s, s', f, s.progs[g]);
    }
  }

  lemma PcStays(s: Sys, s': Sys, f: nat, pc: Pc)
    requires PcClosuresOk(s, pc) && ArgsStay(s, s') && SleepersStay(s, s', f) && PcSpares(pc, f)
    ensures PcClosuresOk(s', pc)
  {
    if pc.Idle? {
      forall i | 0 <= i < |pc.cbs| ensures ClosureOk(s', pc.cbs[i]) {
        ClosureStays(s, s', f, pc.cbs[i]);
      }
    }
  }

  lemma CodeStays(s: Sys, s': Sys, f: nat, prog: Prog)
    requires CodeOk(s, prog) && ArgsStay(s, s') && SleepersStay(s, s', f) && prog != WakeOther(f)
    ensures CodeOk(s', prog)
  {
  }

  // ----- scheduler threads

  lemma MoveArgs(s: Sys, t: nat, move: Move)
    requires CanMove(s, t, move) && !move.Switch?
    ensures DoMove(s, t, move).calls == s.calls && DoMove(s, t, move).progs == s.progs
  {
  }

  lemma ScanClosures(s: Sys, t: nat)
    requires ClosuresOk(s) && AtScan(s, t)
    ensures ClosuresOk(DoScan(s, t))
  {
    var s' := DoScan(s, t);
    AllStays(s, s', t);
    var i := FirstEligible(s.queue, t, s.states);
    if i < |s.queue| {
      assert TaskOk(s, s.queue[i].task);
      forall k | 0 <= k < |s'.queue| ensures TaskOk(s', s'.queue[k].task) {
        assert s'.queue[k] == s.queue[if k < i then k else k + 1];
      }
    }
  }

  /** With every code where it was, only what is new has to be looked at. */
  lemma AllStays(s: Sys, s': Sys, t: nat)
    requires ClosuresOk(s) && s'.calls == s.calls && s'.progs == s.progs
    requires |s'.threads| == |s.threads| && forall u :: 0 <= u < |s.threads| && u != t ==>
      s'.threads[u].pc == s.threads[u].pc
    ensures CodesOk(s')
    ensures forall i :: 0 <= i < |s.timers| && s.timers[i].Some? ==> ClosureOk(s', s.timers[i].value)
    ensures forall i :: 0 <= i < |s.queue| ==> TaskOk(s', s.queue[i].task)
    ensures forall u :: 0 <= u < |s.threads| ==> PcClosuresOk(s', s.threads[u].pc)
  {
    RestStays(s, s', |s.progs|, t) by { AwakeIsSpared(s, |s.progs|); }
  }

  lemma ExpireClosures(s: Sys, t: nat, i: nat, recurring: bool)
    requires ClosuresOk(s) && CanMove(s, t, Expire(i, recurring))
    ensures ClosuresOk(DoExpire(s, t, i, recurring))
  {
    var s' := DoExpire(s, t, i, recurring);
    AllStays(s, s', t);
    var was, now := s.threads[t].pc, s'.threads[t].pc;
    assert PcClosuresOk(s', was) && ClosureOk(s', s.timers[i].value);
    forall k | 0 <= k < |now.cbs| ensures ClosureOk(s', now.cbs[k]) {
      assert now.cbs[k] == if k < |was.cbs| then was.cbs[k] else s.timers[i].value;
    }
  }

  lemma FlushClosures(s: Sys, t: nat)
    requires ClosuresOk(s) && AtIdle(s, t)
    ensures ClosuresOk(DoFlush(s, t))
  {
    var s', cbs := DoFlush(s, t), s.threads[t].pc.cbs;
    AllStays(s, s', t);
    assert PcClosuresOk(s', s.threads[t].pc);
    forall k | 0 <= k < |s'.queue| ensures TaskOk(s', s'.queue[k].task) {
      if k >= |s.queue| {
        assert s'.queue[k].task == CbTask(cbs[k - |s.queue|]);
      }
    }
  }

  /** The other moves add at most a queue entry for a fiber and leave no closure in the thread's hands. */
  lemma OtherMoveShape(s: Sys, t: nat, move: Move)
    requires CanMove(s, t, move) && !move.Switch? && !move.Scan? && !move.Expire? && !move.Flush?
    ensures var s' := DoMove(s, t, move);
            && s'.timers == s.timers && !s'.threads[t].pc.Picked?
                && (s'.threads[t].pc.Idle? ==> s'.threads[t].pc.cbs == [])
            && s.queue <= s'.queue && forall k :: |s.queue| <= k < |s'.queue| ==> s'.queue[k].task.FiberTask?
  {
  }

  lemma MoveClosures(s: Sys, t: nat, move: Move)
    requires ClosuresOk(s) && |s.states| == |s.progs| && CanMove(s, t, move) && !move.Switch?
    ensures ClosuresOk(DoMove(s, t, move))
  {
    if move.Scan? {
      ScanClosures(s, t);
    } else if move.Expire? {
      ExpireClosures(s, t, move.timer, move.recurring);
    } else if move.Flush? {
      FlushClosures(s, t);
    } else {
      MoveShape(s, t, move);
      MoveArgs(s, t, move);
      OtherMoveShape(s, t, move);
      AllStays(s, DoMove(s, t, move), t);
    }
  }

  // ----- switching

  /** A switch to a fiber that exists: its code is resumed, or is the callback's. */
  lemma SwitchCode(s: Sys, t: nat, f: nat)
    requires |s.states| == |s.progs| && AboutToRun(s, t, f)
    ensures var s', task := DoSwitch(s, t), s.threads[t].pc.entry.task;
            && |s'.progs| == |s.progs|
            && s'.progs[f] == (if task.FiberTask? then s.progs[f].Resumed() else ProgOf(task.cb))
            && forall g :: 0 <= g < |s.progs| && g != f ==> s'.progs[g] == s.progs[g]
  {
  }

  lemma SwapInClosures(s: Sys, t: nat, f: nat)
    requires Inv(s) && ClosuresOk(s) && AboutToRun(s, t, f)
    ensures ClosuresOk(DoSwitch(s, t))
  {
    var s', task := DoSwitch(s, t), s.threads[t].pc.entry.task;
    AboutToRunIsParked(s, t, f);
    SwitchCode(s, t, f);
    SwapInShape(s, t);
    assert FiberOk(s, f) && PcClosuresOk(s, s.threads[t].pc) && CodeOk(s, s.progs[f]);
    CallbackSparesItsFiber(s, t, f);
    HeldIsSpared(s, t, f);
    RestStays(s, s', f, t);
    if task.CbTask? {
      ClosureStays(s, s', f, task.cb);
    }
    assert CodeOk(s', s'.progs[f]);
  }

  /** The fiber a thread is about to run a callback on is not the one the callback wakes. */
  lemma CallbackSparesItsFiber(s: Sys, t: nat, f: nat)
    requires Kept(s) && AboutToRun(s, t, f)
    ensures PcSpares(s.threads[t].pc, f)
  {
    ThreadsBound(s, t, WakeOf(f));
    assert FiberOk(s, f);
  }

  /** A callback on a new fiber. */
  lemma SwapInNewClosures(s: Sys, t: nat)
    requires |s.states| == |s.progs| && ClosuresOk(s) && AtPicked(s, t)
    requires s.threads[t].pc.entry.task.CbTask? && s.threads[t].cbFiber.None?
    ensures ClosuresOk(DoSwitch(s, t))
  {
    var s', task := DoSwitch(s, t), s.threads[t].pc.entry.task;
    SwapInNewShape(s, t);
    SwapInShape(s, t);
    assert PcClosuresOk(s, s.threads[t].pc);
    AwakeIsSpared(s, |s.progs|);
    RestStays(s, s', |s.progs|, t);
    ClosureStays(s, s', |s.progs|, task.cb);
    assert CodeOk(s', s'.progs[|s.progs|]);
  }

  lemma DropClosures(s: Sys, t: nat)
    requires ClosuresOk(s) && AtPicked(s, t) && s.threads[t].pc.entry.task.FiberTask?
    requires StateOf(s.states, s.threads[t].pc.entry.task.fiber).Finished()
    ensures ClosuresOk(DoSwitch(s, t))
  {
    AllStays(s, DoSwitch(s, t), t);
  }

  lemma SwitchClosures(s: Sys, t: nat)
    requires Inv(s) && ClosuresOk(s) && AtPicked(s, t)
    ensures ClosuresOk(DoSwitch(s, t))
  {
    var th := s.threads[t];
    match th.pc.entry.task
    case FiberTask(f) =>
      ThreadsBound(s, t, WakeOf(f));
      assert FiberOk(s, f);
      if StateOf(s.states, f).Finished() {
        DropClosures(s, t);
      } else {
        SwapInClosures(s, t, f);
      }
    case CbTask(_) =>
      if th.cbFiber.None? {
        SwapInNewClosures(s, t);
      } else {
        assert ThreadOk(s, th);
        SwapInClosures(s, t, th.cbFiber.value);
      }
  }

  // ----- fd operations queue no closure but clients'

  /** The tasks of these slots wake nobody and time nothing out. */
  predicate SlotsClient(slots: seq<Slot>) { forall i :: 0 <= i < |slots| ==> slots[i].cb.Some? ==>
      slots[i].cb.value.Client? }

  lemma AbsorbClosures(s: Sys, o: Outcome)
    requires ClosuresOk(s) && (o.Done? ==> SlotsClient(o.woken))
    ensures ClosuresOk(Absorb(s, o))
  {
    var s' := Absorb(s, o);
    AllStays(s, s', |s.threads|);
    if o.Done? {
      forall k | 0 <= k < |s'.queue| ensures TaskOk(s', s'.queue[k].task) {
        if k >= |s.queue| {
          assert s'.queue[k].task == TasksOf(o.woken)[k - |s.queue|];
          ClientTask(o.woken, k - |s.queue|);
        }
      }
    }
  }

  lemma ClientTask(slots: seq<Slot>, k: nat)
    requires SlotsClient(slots) && k < |slots|
    ensures TasksOf(slots)[k].CbTask? ==> TasksOf(slots)[k].cb.Client?
  {
  }

  lemma CancelWakesClients(s: Sys, fd: nat, ev: EventType, fault: bool)
    requires IoInv(s.io) && SlotsOk(s)
    ensures var o := CancelEvent(s.io, fd, ev, fault);
            o.Done? ==> SlotsClient(o.woken)
  {
    CancelEventKeeps(s.io, fd, ev, fault, OfReg(0));
    assert RegisteredAt(s.io, fd, ev) ==> SlotOk(s.progs, s.io.fds[fd].Get(ev), fd, ev);
  }

  lemma SlotsInClient(s: Sys, fd: nat, m: Mask)
    requires SlotsOk(s) && fd < |s.io.fds| && m.Minus(s.io.fds[fd].et).IsNone()
    ensures SlotsClient(SlotsIn(s.io.fds[fd], m))
  {
    assert RegisteredAt(s.io, fd, Read) ==> SlotOk(s.progs, s.io.fds[fd].Get(Read), fd, Read);
    assert RegisteredAt(s.io, fd, Write) ==> SlotOk(s.progs, s.io.fds[fd].Get(Write), fd, Write);
  }

  lemma DeedWakesClients(s: Sys, deed: Deed)
    requires IoInv(s.io) && SlotsOk(s) && CanHappen(s, deed)
    ensures DeedOutcome(s, deed).Done? ==> SlotsClient(DeedOutcome(s, deed).woken)
  {
    if deed.DropEvent? {
      DelEventKeeps(s.io, deed.fd, deed.ev, deed.fault);
    } else if deed.Cancel? {
      CancelWakesClients(s, deed.fd, deed.ev, deed.fault);
    } else if deed.CancelFd? {
      CancelAllKeeps(s.io, deed.fd, deed.fault, OfReg(0));
      if CancelAll(s.io, deed.fd, deed.fault).Done? {
        SlotsInClient(s, deed.fd, s.io.fds[deed.fd].et);
      }
    } else if deed.Report? {
      DispatchKeeps(s.io, deed.fd, deed.report, deed.fault, OfReg(0));
      if Dispatch(s.io, deed.fd, deed.report, deed.fault).Done? {
        SlotsInClient(s, deed.fd, deed.report.Real());
      }
    }
  }

  /** Deeds without an fd operation add a fiber, a queue entry or a client's timer. */
  lemma PlainDeedClosures(s: Sys, deed: Deed)
    requires ClosuresOk(s) && |s.states| == |s.progs| && CanHappen(s, deed) && !FdDeed(deed)
    ensures ClosuresOk(DoDeed(s, deed))
  {
    var s' := DoDeed(s, deed);
    DeedShape(s, deed);
    AwakeIsSpared(s, |s.progs|);
    RestStays(s, s', |s.progs|, |s.threads|);
  }

  lemma FdDeedIsAbsorb(s: Sys, deed: Deed)
    requires CanHappen(s, deed) && FdDeed(deed)
    ensures DoDeed(s, deed) == Absorb(s, DeedOutcome(s, deed))
  {
  }

  lemma DeedClosures(s: Sys, deed: Deed)
    requires Inv(s) && SlotsOk(s) && ClosuresOk(s) && CanHappen(s, deed)
    ensures ClosuresOk(DoDeed(s, deed))
  {
    if FdDeed(deed) {
      DeedWakesClients(s, deed);
      FdDeedIsAbsorb(s, deed);
      AbsorbClosures(s, DeedOutcome(s, deed));
    } else {
      PlainDeedClosures(s, deed);
    }
  }

  // ----- a fiber's own code

  /** A step of the code of `f`, which was awake: what it moves on to, arms and queues is all right. */
  lemma CodeStepClosures(s: Sys, s': Sys, f: nat)
    requires ClosuresOk(s) && f < |s.progs| == |s'.progs| && !Asleep(s, f) && s'.threads == s.threads && ArgsStay(s, s')
    requires forall g :: 0 <= g < |s.progs| && g != f ==> s'.progs[g] == s.progs[g]
    requires CodeOk(s', s'.progs[f])
    requires forall i :: 0 <= i < |s'.timers| && s'.timers[i].Some? ==>
      (i < |s.timers| && s'.timers[i] == s.timers[i]) || ClosureOk(s', s'.timers[i].value)
    requires forall k :: 0 <= k < |s'.queue| ==>
      (k < |s.queue| && s'.queue[k] == s.queue[k]) || TaskOk(s', s'.queue[k].task)
    ensures ClosuresOk(s')
  {
    AwakeIsSpared(s, f);
    RestStays(s, s', f, |s.threads|);
  }

  lemma FdStmtClosures(s: Sys, t: nat, stmt: Stmt)
    requires Inv(s) && SlotsOk(s) && ClosuresOk(s) && CanRun(s, t, stmt) && UsesFds(stmt)
    ensures ClosuresOk(DoStmt(s, t, stmt))
  {
    var s', f, o := DoStmt(s, t, stmt), s.threads[t].pc.fiber, StmtOutcome(s, t, stmt);
    StmtCounts(s, t, stmt, TimeoutOf(0));
    StmtWakesClients(s, t, stmt);
    var s1 := Absorb(s, o);
    AbsorbClosures(s, o);
    FdStmtIsAbsorb(s, t, stmt);
    assert CodeOk(s, s.progs[f]);
    CodeStepClosures(s1, s', f);
  }

  lemma StmtWakesClients(s: Sys, t: nat, stmt: Stmt)
    requires IoInv(s.io) && SlotsOk(s) && CanRun(s, t, stmt) && UsesFds(stmt)
    ensures StmtOutcome(s, t, stmt).Done? ==> SlotsClient(StmtOutcome(s, t, stmt).woken)
  {
    var f, code := s.threads[t].pc.fiber, CodeAt(s, t);
    match stmt
    case RegisterSelf(fd, ev, fault) => AddEventKeeps(s.io, fd, ev, FiberTask(f), fault);
    case RegisterCb(fd, ev, id, fault) => AddEventKeeps(s.io, fd, ev, CbTask(Client(id)), fault);
    case AddWait(fault) => AddEventKeeps(s.io, code.fd, code.ev, FiberTask(f), fault);
    case RunTimeoutFire(fault) => CancelWakesClients(s, code.fd, code.ev, fault);
  }

  /** The fd operation, and then the code moves on within its call. */
  lemma FdStmtIsAbsorb(s: Sys, t: nat, stmt: Stmt)
    requires CanRun(s, t, stmt) && UsesFds(stmt)
    ensures var s', f, s1 := DoStmt(s, t, stmt), s.threads[t].pc.fiber, Absorb(s, StmtOutcome(s, t, stmt));
            && f < |s.progs| && s' == s1.(progs := s.progs[f := s'.progs[f]]) && s1.progs == s.progs
            && (CodeOk(s, s.progs[f]) ==> CodeOk(s1, s'.progs[f]))
  {
  }

  lemma PlainStmtClosures(s: Sys, t: nat, stmt: Stmt)
    requires Inv(s) && ClosuresOk(s) && CanRun(s, t, stmt) && !UsesFds(stmt)
    ensures ClosuresOk(DoStmt(s, t, stmt))
  {
    var s', f := DoStmt(s, t, stmt), s.threads[t].pc.fiber;
    StmtCounts(s, t, stmt, TimeoutOf(0));
    assert CodeOk(s, s.progs[f]);
    PlainStmtMovesOn(s, t, stmt);
    CodeStepClosures(s, s', f);
  }

  /** What the code of `f` arms, queues and moves on to is all right. */
  predicate MovesOn(s: Sys, s': Sys, f: nat)
  {
    && ArgsStay(s, s') && f < |s'.progs| && CodeOk(s', s'.progs[f])
    && (forall i :: 0 <= i < |s'.timers| && s'.timers[i].Some? ==>
          (i < |s.timers| && s'.timers[i] == s.timers[i]) || ClosureOk(s', s'.timers[i].value))
    && (forall k :: 0 <= k < |s'.queue| ==>
          (k < |s.queue| && s'.queue[k] == s.queue[k]) || TaskOk(s', s'.queue[k].task))
  }

  lemma CancelTimeoutMovesOn(s: Sys, t: nat)
    requires AtDisarm(s, t) && CodeOk(s, CodeAt(s, t))
    ensures MovesOn(s, DoCancelTimeout(s, t), s.threads[t].pc.fiber)
  {
    match CodeAt(s, t)
    case CallWoken(_, _, _, _) =>
    case CallFailed(_, _) =>
  }

  lemma ReturningMovesOn(s: Sys, t: nat, stmt: Stmt)
    requires CanRun(s, t, stmt) && (stmt.CheckTimeout? || stmt.RawAgain?) && CodeOk(s, CodeAt(s, t))
    ensures MovesOn(s, DoStmt(s, t, stmt), s.threads[t].pc.fiber)
  {
  }

  lemma CallbackMovesOn(s: Sys, t: nat, stmt: Stmt)
    requires CanRun(s, t, stmt)
      && (stmt.RunTimeoutLock? || stmt.RunTimeoutCheck? || stmt.RunTimeoutSet? || stmt.WakeSleeper?)
    requires CodeOk(s, CodeAt(s, t))
    ensures MovesOn(s, DoStmt(s, t, stmt), s.threads[t].pc.fiber)
  {
  }

  lemma RegisteringMovesOn(s: Sys, t: nat, stmt: Stmt)
    requires CanRun(s, t, stmt) && (stmt.ScheduleSelf? || stmt.Sleep? || stmt.BeginCall? || stmt.ArmTimeout?)
    requires CodeOk(s, CodeAt(s, t))
    ensures MovesOn(s, DoStmt(s, t, stmt), s.threads[t].pc.fiber)
  {
  }

  lemma PlainStmtMovesOn(s: Sys, t: nat, stmt: Stmt)
    requires CanRun(s, t, stmt) && !UsesFds(stmt) && Runs(s, t) && CodeOk(s, CodeAt(s, t))
    ensures MovesOn(s, DoStmt(s, t, stmt), s.threads[t].pc.fiber)
  {
    if stmt.CancelTimeout? {
      CancelTimeoutMovesOn(s, t);
    } else if stmt.CheckTimeout? || stmt.RawAgain? {
      ReturningMovesOn(s, t, stmt);
    } else if stmt.ScheduleSelf? || stmt.Sleep? || stmt.BeginCall? || stmt.ArmTimeout? {
      RegisteringMovesOn(s, t, stmt);
    } else {
      CallbackMovesOn(s, t, stmt);
    }
  }

  // ----- whole runs

  lemma StepKeepsClosures(s: Sys, a: Action)
    requires Inv(s) && SlotsOk(s) && ClosuresOk(s) && Can(s, a)
    ensures ClosuresOk(Do(s, a))
  {
    match a
    case Loop(t, move) =>
      if move.Switch? {
        SwitchClosures(s, t);
      } else {
        MoveClosures(s, t, move);
      }
    case Outside(deed) => DeedClosures(s, deed);
    case Code(t, stmt) =>
      if UsesFds(stmt) {
        FdStmtClosures(s, t, stmt);
      } else {
        PlainStmtClosures(s, t, stmt);
      }
  }

  lemma {:induction false} RunKeepsClosures(s: Sys, run: seq<Action>)
    requires Inv(s) && SlotsOk(s) && ClosuresOk(s) && ValidRun(s, run)
    ensures ClosuresOk(After(s, run))
    decreases |run|
  {
    if run != [] {
      StepKeepsInv(s, run[0]);
      StepKeepsSlotsOk(s, run[0]);
      StepKeepsClosures(s, run[0]);
      RunKeepsClosures(Do(s, run[0]), run[1..]);
    }
  }

  lemma ReachableClosures(s: Sys)
    requires Reachable(s)
    ensures ClosuresOk(s)
  {
    var n: nat, run :| ValidRun(InitialSys(n), run) && After(InitialSys(n), run) == s;
    InitialInv(n);
    InitialSlotsOk(n);
    RunKeepsClosures(InitialSys(n), run);
  }

  /** In every reachable state the code of a timeout callback works on the fd and event of its call: a fiber in
      the same call works on the same. */
  lemma CallbackHasItsCallsEvent(s: Sys, g: nat, f: nat)
    requires Reachable(s) && g < |s.progs| && f < |s.progs| && s.progs[g].TimeoutFire? && s.progs[f].CallWait?
    requires s.progs[g].call == s.progs[f].call
    ensures s.progs[g].fd == s.progs[f].fd && s.progs[g].ev == s.progs[f].ev
  {
    ReachableClosures(s);
    assert CodeOk(s, s.progs[g]) && CodeOk(s, s.progs[f]);
  }

  // ----- where a suspended call's wake-up is

  ghost predicate IsQueued(s: Sys, f: nat) { exists i :: 0 <= i < |s.queue| && s.queue[i].task == FiberTask(f) }

  ghost predicate IsPicked(s: Sys, f: nat)
  {
    exists t :: 0 <= t < |s.threads| && s.threads[t].pc.Picked? && s.threads[t].pc.entry.task == FiberTask(f)
  }

  /** A fiber suspended in a hooked call is in its slot, queued, or dequeued and about to be resumed. */
  lemma CallWaitsSomewhere(s: Sys, f: nat)
    requires Good(s) && ClosuresOk(s) && f < |s.progs| && s.progs[f].CallWait?
    ensures InSlot(s, f) || IsQueued(s, f) || IsPicked(s, f)
  {
    var p := WakeOf(f);
    assert Awaited(s, f);
    AwakeIsSpared(s, f);
    if Weight(s.io, OfSlot(p)) >= 1 {
      WeightIsInSlot(s, f);
    } else if Sum(s.queue, OfEntry(p)) >= 1 {
      var i := SumPositive(s.queue, OfEntry(p));
      assert s.queue[i].task == FiberTask(f);
    } else {
      NotInTimersOrCode(s, f);
      var t := SumPositive(s.threads, OfThread(p));
      HeldByPicked(s, t, f);
    }
  }

  lemma NotInTimersOrCode(s: Sys, f: nat)
    requires NobodyWakes(s, f)
    ensures Sum(s.timers, OfTimer(WakeOf(f))) == 0 && Sum(s.progs, OfProg(WakeOf(f))) == 0
  {
    SumZero(s.timers, OfTimer(WakeOf(f)));
    SumZero(s.progs, OfProg(WakeOf(f)));
  }

  lemma HeldByPicked(s: Sys, t: nat, f: nat)
    requires ThreadsOk(s) && NobodyWakes(s, f) && f < |s.states| && ExecOrHold(s.states[f])
    requires t < |s.threads| && ThreadWeight(WakeOf(f), s.threads[t]) >= 1
    ensures s.threads[t].pc.Picked? && s.threads[t].pc.entry.task == FiberTask(f)
  {
    var th := s.threads[t];
    assert ThreadOk(s, th) && PcSpares(th.pc, f);
    if th.pc.Idle? {
      SumZero(th.pc.cbs, OfClosure(WakeOf(f)));
    }
  }
}
