/** The main results about the wake-up protocol, over every run from an initial state. */
module WakeupTheorems {
  import opened Counting
  import opened Tasks
  import opened FdEvents
  import opened FdEventProofs
  import opened Wakeup
  import opened WakeupInvariant
  import opened WakeupFibers
  import opened WakeupTasks
  import opened WakeupHistory

  // ----- the invariant holds in every reachable state

  lemma InitialCounts(n: nat, p: Probe)
    ensures Wakeups(InitialSys(n), p) == 0
    ensures p.WakeOf? ==> Executions(InitialSys(n), p.fiber) == 0
  {
    var s := InitialSys(n);
    SumZero(s.io.fds, FdEvents.Registered(OfSlot(p)));
    SumZero(s.threads, OfThread(p));
    if p.WakeOf? {
      SumZero(s.threads, OfExec(p.fiber));
    }
  }

  lemma InitialTasks(n: nat)
    ensures TasksOk(InitialSys(n))
  {
    var s := InitialSys(n);
    SumZero(s.threads, ActiveWeight());
    forall k: nat ensures TagOk(s, k) {
      SumZero(s.threads, HeldTag(k));
    }
  }

  lemma InitialRegs(n: nat, r: nat)
    ensures IoInv(InitialSys(n).io) && RegOk(InitialSys(n), r)
  {
    FreshIoInv(INITIAL_FDS);
    SumZero(InitialIo().fds, FdEvents.Registered(OfReg(r)));
  }

  lemma InitialCalls(n: nat, c: nat)
    ensures CallOk(InitialSys(n), c)
  {
    InitialCounts(n, TimeoutOf(c));
  }

  lemma InitialHistory(n: nat)
    ensures HistoryOk(InitialSys(n))
  {
    var s := InitialSys(n);
    InitialRegs(n, 0);
    forall r: nat ensures RegOk(s, r) {
      InitialRegs(n, r);
    }
    forall c: nat ensures CallOk(s, c) {
      InitialCalls(n, c);
    }
  }

  lemma InitialInv(n: nat)
    ensures Inv(InitialSys(n)) && LoopOk(InitialSys(n))
  {
    var s := InitialSys(n);
    forall f: nat ensures FiberOk(s, f) {
      InitialCounts(n, WakeOf(f));
    }
    InitialTasks(n);
    InitialHistory(n);
  }

  lemma StepKeepsInv(s: Sys, a: Action)
    requires Inv(s) && Can(s, a)
    ensures Inv(Do(s, a))
  {
    StepKeepsFibers(s, a);
    StepKeepsTasks(s, a);
    StepKeepsRegs(s, a);
    StepKeepsCalls(s, a);
  }

  /** More facts about where threads are: an entry is held only by a thread it may run on, a thread
      has one callback fiber, and the code of a timer callback is always being run by some thread. */
  ghost predicate LoopOk(s: Sys)
  {
    && |s.states| == |s.progs|
    && (forall t :: 0 <= t < |s.threads| ==> PinOk(t, s.threads[t].pc) && CachesOne(s.threads[t]))
    && (forall f :: 0 <= f < |s.progs| && InCallback(s.progs[f]) ==> RunningSomewhere(s, f))
  }

  predicate PinOk(t: nat, pc: Pc)
  {
    HoldsTask(pc) ==> pc.entry.thread == ANY_THREAD || pc.entry.thread == t
  }

  predicate InCallback(prog: Prog)
  {
    prog.WakeOther? || prog.TimeoutLock? || prog.TimeoutCheck? || prog.TimeoutSet? || prog.TimeoutFire?
  }

  ghost predicate RunningSomewhere(s: Sys, f: nat)
  {
    exists t :: 0 <= t < |s.threads| && RunsFiber(s.threads[t], f)
  }

  predicate RunsFiber(th: Thread, f: nat) { th.pc.Running? && th.pc.fiber == f }

  lemma CodeKeepsLoopOk(s: Sys, t: nat, s': Sys)
    requires LoopOk(s) && Runs(s, t) && exists gain :: OwnEffect(s, t, s', TimeoutOf(0), gain)
    ensures LoopOk(s')
  {
    assert RunsFiber(s.threads[t], s.threads[t].pc.fiber);
    forall f | 0 <= f < |s'.progs| && InCallback(s'.progs[f]) ensures RunningSomewhere(s', f) {
      if f != s.threads[t].pc.fiber {
        assert RunningSomewhere(s, f);
      }
    }
  }

  lemma DeedKeepsLoopOk(s: Sys, deed: Deed)
    requires LoopOk(s) && CanHappen(s, deed)
    ensures LoopOk(DoDeed(s, deed))
  {
    var s' := DoDeed(s, deed);
    DeedShape(s, deed);
    forall f | 0 <= f < |s'.progs| && InCallback(s'.progs[f]) ensures RunningSomewhere(s', f) {
      var u :| 0 <= u < |s.threads| && RunsFiber(s.threads[u], f);
      assert RunsFiber(s'.threads[u], f);
    }
  }

  /** Threads' own steps: only `t` moves, and it stops running a fiber only outside a callback. */
  lemma ThreadKeepsLoopOk(s: Sys, s': Sys, t: nat)
    requires LoopOk(s) && t < |s.threads| == |s'.threads| && |s'.states| == |s'.progs|
    requires forall u :: 0 <= u < |s.threads| && u != t ==> s'.threads[u] == s.threads[u]
    requires PinOk(t, s'.threads[t].pc) && CachesOne(s'.threads[t])
    requires forall f :: 0 <= f < |s'.progs| && InCallback(s'.progs[f]) && !RunsFiber(s'.threads[t], f) ==>
      f < |s.progs| && InCallback(s.progs[f]) && !RunsFiber(s.threads[t], f)
    ensures LoopOk(s')
  {
    forall f | 0 <= f < |s'.progs| && InCallback(s'.progs[f]) ensures RunningSomewhere(s', f) {
      if !RunsFiber(s'.threads[t], f) {
        var u :| 0 <= u < |s.threads| && RunsFiber(s.threads[u], f);
        assert RunsFiber(s'.threads[u], f);
      }
    }
  }

  /** A switch changes the code of the fiber switched to, and of no other. */
  lemma SwitchedCode(s: Sys, t: nat)
    requires |s.states| == |s.progs| && AtPicked(s, t)
    ensures var s' := DoSwitch(s, t);
            && |s'.states| == |s'.progs| >= |s.progs| && |s'.threads| == |s.threads|
            && (forall u :: 0 <= u < |s.threads| && u != t ==> s'.threads[u] == s.threads[u])
            && (s'.threads[t].pc.Running? || s'.threads[t].pc.Scanning?) && CachesOne(s'.threads[t])
            && (PinOk(t, s.threads[t].pc) ==> PinOk(t, s'.threads[t].pc))
            && forall f :: 0 <= f < |s'.progs| && !RunsFiber(s'.threads[t], f) ==>
                 f < |s.progs| && s'.progs[f] == s.progs[f]
  {
    match s.threads[t].pc.entry.task
    case FiberTask(_) =>
    case CbTask(_) =>
      match s.threads[t].cbFiber
      case Some(_) =>
      case None =>
  }

  lemma StoppingShape(s: Sys, t: nat, move: Move)
    requires CanMove(s, t, move) && InStopping(move)
    ensures var s' := DoMove(s, t, move);
            && s'.progs == s.progs && s'.states == s.states && |s'.threads| == |s.threads|
            && (forall u :: 0 <= u < |s.threads| && u != t ==> s'.threads[u] == s.threads[u])
            && !HoldsTask(s'.threads[t].pc) && CachesOne(s'.threads[t]) && !s.threads[t].pc.Running?
  {
  }

  lemma IdleShape(s: Sys, t: nat, move: Move)
    requires CanMove(s, t, move) && (move.Expire? || move.Flush?)
    ensures var s' := DoMove(s, t, move);
            && s'.progs == s.progs && s'.states == s.states && |s'.threads| == |s.threads|
            && (forall u :: 0 <= u < |s.threads| && u != t ==> s'.threads[u] == s.threads[u])
            && s'.threads[t].pc.Idle? && !s.threads[t].pc.Running?
  {
  }

  lemma MoveShape(s: Sys, t: nat, move: Move)
    requires CanMove(s, t, move) && !move.Switch?
    ensures var s' := DoMove(s, t, move);
            && s'.progs == s.progs && |s'.states| == |s.states| && |s'.threads| == |s.threads|
            && (forall u :: 0 <= u < |s.threads| && u != t ==> s'.threads[u] == s.threads[u])
            && (PinOk(t, s.threads[t].pc) ==> PinOk(t, s'.threads[t].pc)) && !s'.threads[t].pc.Running?
            && (CachesOne(s.threads[t]) ==> CachesOne(s'.threads[t]))
            && (s.threads[t].pc.Running? ==> Runs(s, t) && !InCallback(CodeAt(s, t)))
  {
    if InStopping(move) {
      StoppingShape(s, t, move);
    } else if move.Expire? || move.Flush? {
      IdleShape(s, t, move);
    }
  }

  lemma MoveKeepsLoopOk(s: Sys, t: nat, move: Move)
    requires LoopOk(s) && CanMove(s, t, move)
    ensures LoopOk(DoMove(s, t, move))
  {
    if move.Switch? {
      SwitchedCode(s, t);
    } else {
      MoveShape(s, t, move);
    }
    ThreadKeepsLoopOk(s, DoMove(s, t, move), t);
  }

  lemma StepKeepsLoopOk(s: Sys, a: Action)
    requires Inv(s) && LoopOk(s) && Can(s, a)
    ensures LoopOk(Do(s, a))
  {
    match a
    case Loop(t, move) => MoveKeepsLoopOk(s, t, move);
    case Outside(deed) => DeedKeepsLoopOk(s, deed);
    case Code(t, stmt) =>
      StmtCounts(s, t, stmt, TimeoutOf(0));
      CodeKeepsLoopOk(s, t, Do(s, a));
  }

  lemma {:induction false} RunKeepsInv(s: Sys, run: seq<Action>)
    requires Inv(s) && LoopOk(s) && ValidRun(s, run)
    ensures Inv(After(s, run)) && LoopOk(After(s, run))
    decreases |run|
  {
    if run != [] {
      StepKeepsInv(s, run[0]);
      StepKeepsLoopOk(s, run[0]);
      RunKeepsInv(Do(s, run[0]), run[1..]);
    }
  }

  ghost predicate Reachable(s: Sys)
  {
    exists n: nat, run: seq<Action> :: ValidRun(InitialSys(n), run) && After(InitialSys(n), run) == s
  }

  lemma ReachableInv(s: Sys)
    requires Reachable(s)
    ensures Inv(s) && LoopOk(s)
  {
    var n: nat, run :| ValidRun(InitialSys(n), run) && After(InitialSys(n), run) == s;
    InitialInv(n);
    RunKeepsInv(InitialSys(n), run);
  }

  lemma ReachableParts(s: Sys)
    requires Reachable(s)
    ensures IoInv(s.io) && FibersOk(s) && ThreadsOk(s)
  {
    ReachableInv(s);
  }

  // ----- fibers

  /** At most one outstanding wake-up per fiber: fd slot, timer, expired or running callback, queue
      entry, or a thread that has dequeued it, is about to re-queue it or has it cached. */
  lemma OneWakeupPerFiber(s: Sys, f: nat)
    requires Reachable(s)
    ensures Wakeups(s, WakeOf(f)) <= 1
  {
    ReachableInv(s);
    assert FiberOk(s, f);
  }

  /** No fiber executes on two threads. */
  lemma NeverOnTwoThreads(s: Sys, t: nat, u: nat)
    requires Reachable(s) && t < |s.threads| && u < |s.threads| && t != u
    requires s.threads[t].pc.Running? && s.threads[u].pc.Running?
    ensures s.threads[t].pc.fiber != s.threads[u].pc.fiber
  {
    ReachableInv(s);
    var f := s.threads[t].pc.fiber;
    assert FiberOk(s, f);
    OnlyOneExecutor(s, f, t, u);
  }

  /** The fiber a thread is about to switch to is not EXEC: the assertion in swapIn never fails. */
  lemma SwapInAssertionHolds(s: Sys, t: nat)
    requires Reachable(s) && AtPicked(s, t)
    ensures var th := s.threads[t];
            match th.pc.entry.task
            case FiberTask(f) => f < |s.states| && !s.states[f].Exec?
            case CbTask(_) => th.cbFiber.Some? ==> th.cbFiber.value < |s.states| && s.states[th.cbFiber.value].Init?
  {
    ReachableInv(s);
    assert ThreadOk(s, s.threads[t]);
    if s.threads[t].pc.entry.task.FiberTask? {
      var f := s.threads[t].pc.entry.task.fiber;
      ThreadsBound(s, t, WakeOf(f));
      assert FiberOk(s, f);
    }
  }

  /** A running fiber is EXEC, as YieldToHold and addEvent assert, and when its thread is about to
      settle it the state it reads is the one it left with, so Fiber::reset's assertion holds. */
  lemma RunningStateAssertionsHold(s: Sys, t: nat)
    requires Reachable(s) && t < |s.threads|
    ensures s.threads[t].pc.Running? ==> StateOf(s.states, s.threads[t].pc.fiber).Exec?
    ensures s.threads[t].pc.Counted? ==> LeftBy(s.threads[t].pc.how, StateOf(s.states, s.threads[t].pc.fiber))
  {
    ReachableInv(s);
    assert ThreadOk(s, s.threads[t]);
  }

  // ----- tasks

  /** Every pushed entry is in exactly one place: queued, held by one thread, or consumed. */
  lemma TaskConservation(s: Sys, k: nat)
    requires Reachable(s) && k < s.nextTag
    ensures Sum(s.queue, QueuedTag(k)) + Sum(s.threads, HeldTag(k)) + Sum(s.log, ConsumedTag(k)) == 1
  {
    ReachableInv(s);
    assert TagOk(s, k);
  }

  /** A thread never holds an entry pinned to another one, from the dequeue to the decrement. */
  lemma PinnedEntriesStayPut(s: Sys, t: nat)
    requires Reachable(s) && t < |s.threads| && HoldsTask(s.threads[t].pc)
    ensures s.threads[t].pc.entry.thread == ANY_THREAD || s.threads[t].pc.entry.thread == t
  {
    ReachableInv(s);
  }

  /** m_activateThreadCount is the number of threads between a dequeue and its one decrement. */
  lemma ActiveCountIsExact(s: Sys)
    requires Reachable(s)
    ensures s.active == Sum(s.threads, ActiveWeight())
  {
    ReachableInv(s);
  }

  // ----- registrations and timeouts

  /** The slot of a registration is triggered, and so its fiber scheduled by it, at most once. */
  lemma RegistrationWakesOnce(s: Sys, i: nat, j: nat)
    requires Reachable(s) && i < j < |s.log| && s.log[i].Woke? && s.log[j].Woke?
    ensures s.log[i].reg != s.log[j].reg
  {
    ReachableInv(s);
    var r := s.log[i].reg;
    assert RegOk(s, r);
    SumTwo(s.log, i, j, WokeReg(r));
  }

  /** A registration still in its slot has not been triggered. */
  lemma RegisteredNotYetWoken(s: Sys, fd: nat, ev: EventType)
    requires Reachable(s) && fd < |s.io.fds| && s.io.fds[fd].et.Has(ev)
    ensures Woke(s.io.fds[fd].Get(ev).reg) !in s.log
  {
    ReachableInv(s);
    var r := s.io.fds[fd].Get(ev).reg;
    assert RegOk(s, r);
    SumAt(s.io.fds, fd, FdEvents.Registered(OfReg(r)));
    if Woke(r) in s.log {
      var i :| 0 <= i < |s.log| && s.log[i] == Woke(r);
      SumAt(s.log, i, WokeReg(r));
    }
  }

  /** A call reports ETIMEDOUT only after a timer callback holding its own timer_info ran. */
  lemma TimedOutOnlyByOwnTimer(s: Sys, j: nat)
    requires Reachable(s) && j < |s.log| && s.log[j].TimedOut?
    ensures exists i :: 0 <= i < j && s.log[i] == TimerRan(s.log[j].call)
  {
    ReachableInv(s);
    assert TimerRan(s.log[j].call) in s.log[..j];
  }

  /** Such a callback runs no more often than the call armed a timer; so a call that armed none never
      reports ETIMEDOUT. */
  lemma TimersRunAtMostOncePerArming(s: Sys, c: nat)
    requires Reachable(s)
    ensures Sum(s.log, RanFor(c)) <= Sum(s.log, ArmedFor(c))
    ensures TimedOut(c) in s.log ==> Event.Armed(c) in s.log
  {
    ReachableInv(s);
    assert CallOk(s, c);
    if TimedOut(c) in s.log {
      var j :| 0 <= j < |s.log| && s.log[j] == TimedOut(c);
      TimedOutOnlyByOwnTimer(s, j);
      var i :| 0 <= i < j && s.log[i] == TimerRan(c);
      SumAt(s.log, i, RanFor(c));
      var k := SumPositive(s.log, ArmedFor(c));
    }
  }

  /** In every reachable state the kernel waits for exactly the registered bits and
      m_pendingEventCount is their number. */
  lemma FdTableIsExact(s: Sys)
    requires Reachable(s)
    ensures KernelExact(s.io) && s.io.pending == Sum(s.io.fds, Bits)
  {
    ReachableInv(s);
  }

  predicate Drops(a: Action) { a.Outside? && a.deed.DropEvent? }

  lemma StmtKeepsSlots(s: Sys, t: nat, stmt: Stmt)
    requires IoInv(s.io) && SlotsExact(s.io) && CanRun(s, t, stmt) && UsesFds(stmt)
    ensures SlotsExact(StmtOutcome(s, t, stmt).io)
  {
    var f, code := s.threads[t].pc.fiber, CodeAt(s, t);
    StmtRegEffect(s, t, stmt, 0);
    match stmt
    case RegisterSelf(fd, ev, fault) => AddEventKeeps(s.io, fd, ev, FiberTask(f), fault);
    case RegisterCb(fd, ev, id, fault) => AddEventKeeps(s.io, fd, ev, CbTask(Client(id)), fault);
    case AddWait(fault) => AddEventKeeps(s.io, code.fd, code.ev, FiberTask(f), fault);
    case RunTimeoutFire(fault) => CancelEventKeeps(s.io, code.fd, code.ev, fault, OfReg(0));
  }

  lemma DeedKeepsSlots(s: Sys, deed: Deed)
    requires IoInv(s.io) && SlotsExact(s.io) && CanHappen(s, deed) && !deed.DropEvent?
    ensures SlotsExact(DeedOutcome(s, deed).io)
  {
    if deed.Cancel? {
      CancelEventKeeps(s.io, deed.fd, deed.ev, deed.fault, OfReg(0));
    } else if deed.CancelFd? {
      CancelAllKeeps(s.io, deed.fd, deed.fault, OfReg(0));
    } else if deed.Report? {
      DispatchKeeps(s.io, deed.fd, deed.report, deed.fault, OfReg(0));
    }
  }

  lemma StepKeepsSlots(s: Sys, a: Action)
    requires IoInv(s.io) && SlotsExact(s.io) && Can(s, a) && !Drops(a)
    ensures SlotsExact(Do(s, a).io)
  {
    match a
    case Loop(t, move) => MoveQuiet(s, t, move);
    case Outside(deed) =>
      DeedIsOutcome(s, deed);
      DeedRegEffect(s, deed, 0);
      DeedKeepsSlots(s, deed);
    case Code(t, stmt) =>
      if UsesFds(stmt) {
        StmtIsOutcome(s, t, stmt);
        StmtRegEffect(s, t, stmt, 0);
        StmtKeepsSlots(s, t, stmt);
      } else if ForTimeouts(stmt) {
        TimeoutStmtQuiet(s, t, stmt);
      } else {
        PlainStmtQuiet(s, t, stmt);
      }
  }

  lemma {:induction false} RunKeepsSlots(s: Sys, run: seq<Action>)
    requires Inv(s) && SlotsExact(s.io) && ValidRun(s, run) && forall i :: 0 <= i < |run| ==> !Drops(run[i])
    ensures SlotsExact(After(s, run).io)
    decreases |run|
  {
    if run != [] {
      StepKeepsInv(s, run[0]);
      StepKeepsSlots(s, run[0]);
      RunKeepsSlots(Do(s, run[0]), run[1..]);
    }
  }

  /** In a run without delEvent a bit is set exactly when its slot holds a scheduler and one of fiber
      and callback, so addEvent's assertions fail only on a second registration of the same event. */
  lemma SlotsExactWithoutDelEvent(n: nat, run: seq<Action>, fd: nat, ev: EventType, who: Task, fault: bool)
    requires ValidRun(InitialSys(n), run) && forall i :: 0 <= i < |run| ==> !Drops(run[i])
    ensures var io := After(InitialSys(n), run).io;
            && SlotsExact(io)
            && (AddEvent(io, fd, ev, who, fault).Aborted? <==> fd < |io.fds| && io.fds[fd].et.Has(ev))
  {
    InitialInv(n);
    FreshIoInv(INITIAL_FDS);
    RunKeepsSlots(InitialSys(n), run);
    RunKeepsInv(InitialSys(n), run);
    AddEventAbortsOnDuplicate(After(InitialSys(n), run).io, fd, ev, who, fault);
  }

  lemma AddEventAbortsOnDuplicate(io: Io, fd: nat, ev: EventType, who: Task, fault: bool)
    requires IoInv(io) && SlotsExact(io)
    ensures AddEvent(io, fd, ev, who, fault).Aborted? <==> fd < |io.fds| && io.fds[fd].et.Has(ev)
  {
    AddEventKeeps(io, fd, ev, who, fault);
    GrowKeeps(io, fd);
  }
}
