/** What IOManager::stopping() being true means.  It reads timers, pending count and queue one after the
    other, so its answer can be stale; and some wake-ups escape all three reads. */
module WakeupStopping {
  import opened Counting
  import opened Tasks
  import opened FdEvents
  import opened FdEventProofs
  import opened Wakeup
  import opened WakeupInvariant
  import opened WakeupFibers
  import opened WakeupTasks
  import opened WakeupHistory
  import opened WakeupTheorems
  import opened WakeupSlots
  import opened WakeupNoLoss
  import opened WakeupScenarios

  // ----- at the last read

  /** When the last read of stopping() succeeds nothing is queued and no thread holds a task. */
  lemma LastReadSeesNoTask(s: Sys, t: nat, u: nat)
    requires Reachable(s) && CanMove(s, t, EndIdle) && u < |s.threads|
    ensures s.queue == [] && !HoldsTask(s.threads[u].pc)
  {
    ReachableInv(s);
    SumAt(s.threads, u, ActiveWeight());
  }

  /** The places where a wake-up escapes all reads: a thread between the decrement and the re-queue of a
      READY fiber (or the caching of a finished callback fiber), callbacks taken from the timer set and
      not yet queued, and cached callback fibers. */
  ghost predicate Escapes(s: Sys, f: nat)
  {
    exists t :: 0 <= t < |s.threads| && EscapesOn(s.threads[t], f)
  }

  predicate EscapesOn(th: Thread, f: nat)
  {
    || (th.pc.Counted? && th.pc.fiber == f && Keeps(th.pc.viaCb, th.pc.how))
    || (th.pc.Idle? && WakeFiber(f) in th.pc.cbs)
    || th.cbFiber == Some(f)
  }

  ghost predicate InTimer(s: Sys, f: nat)
  {
    exists i :: 0 <= i < |s.timers| && s.timers[i] == Some(WakeFiber(f))
  }

  /** Where a wake-up can be while nothing is queued and no thread holds a task: in a registered slot, in
      an armed timer, or where it escapes every read. */
  lemma WakeupLeft(s: Sys, f: nat)
    requires LoopOk(s) && IoInv(s.io) && SlotsOk(s) && s.queue == [] && Wakeups(s, WakeOf(f)) >= 1
    requires forall t :: 0 <= t < |s.threads| ==> !HoldsTask(s.threads[t].pc)
    ensures InSlot(s, f) || InTimer(s, f) || Escapes(s, f)
  {
    var p := WakeOf(f);
    NoCallbackRuns(s, p);
    if Weight(s.io, OfSlot(p)) >= 1 {
      WeightIsInSlot(s, f);
    } else if Sum(s.timers, OfTimer(p)) >= 1 {
      var i := SumPositive(s.timers, OfTimer(p));
      assert s.timers[i] == Some(WakeFiber(f));
    } else {
      var t := SumPositive(s.threads, OfThread(p));
      ThreadWakeupEscapes(s.threads[t], f);
    }
  }

  lemma NoCallbackRuns(s: Sys, p: Probe)
    requires LoopOk(s) && forall t :: 0 <= t < |s.threads| ==> !HoldsTask(s.threads[t].pc)
    ensures Sum(s.progs, OfProg(p)) == 0
  {
    forall g | 0 <= g < |s.progs| ensures OfProg(p)(s.progs[g]) == 0 {
      assert InCallback(s.progs[g]) ==> RunningSomewhere(s, g);
    }
    SumZero(s.progs, OfProg(p));
  }

  lemma ThreadWakeupEscapes(th: Thread, f: nat)
    requires !HoldsTask(th.pc) && ThreadWeight(WakeOf(f), th) >= 1
    ensures EscapesOn(th, f)
  {
    if th.pc.Idle? && Sum(th.pc.cbs, OfClosure(WakeOf(f))) > 0 {
      var i := SumPositive(th.pc.cbs, OfClosure(WakeOf(f)));
    }
  }

  /** Each of these places does hold a wake-up. */
  lemma PlaceHoldsWakeup(s: Sys, f: nat)
    requires IoInv(s.io) && (InSlot(s, f) || InTimer(s, f) || Escapes(s, f))
    ensures Wakeups(s, WakeOf(f)) >= 1
  {
    var p := WakeOf(f);
    if InSlot(s, f) {
      var fd: nat, ev :| RegisteredAt(s.io, fd, ev) && s.io.fds[fd].Get(ev).fiber == Some(f);
      SlotWeighs(s.io, fd, ev, f);
    } else if InTimer(s, f) {
      var i :| 0 <= i < |s.timers| && s.timers[i] == Some(WakeFiber(f));
      SumAt(s.timers, i, OfTimer(p));
    } else {
      var t :| 0 <= t < |s.threads| && EscapesOn(s.threads[t], f);
      EscapeWeighs(s.threads[t], f);
      SumAt(s.threads, t, OfThread(p));
    }
  }

  lemma EscapeWeighs(th: Thread, f: nat)
    requires EscapesOn(th, f)
    ensures ThreadWeight(WakeOf(f), th) >= 1
  {
    if th.pc.Idle? && WakeFiber(f) in th.pc.cbs {
      var i :| 0 <= i < |th.pc.cbs| && th.pc.cbs[i] == WakeFiber(f);
      SumAt(th.pc.cbs, i, OfClosure(WakeOf(f)));
    }
  }

  /** At the last read of a successful stopping(), a fiber has a wake-up left if and only if it is registered,
      armed, or one of the three kinds that escape. */
  lemma StoppingLeaves(s: Sys, t: nat, f: nat)
    requires Reachable(s) && CanMove(s, t, EndIdle)
    ensures Wakeups(s, WakeOf(f)) == 1 <==> InSlot(s, f) || InTimer(s, f) || Escapes(s, f)
  {
    ReachableInv(s);
    ReachableSlotsOk(s);
    OneWakeupPerFiber(s, f);
    forall u | 0 <= u < |s.threads| ensures !HoldsTask(s.threads[u].pc) {
      LastReadSeesNoTask(s, t, u);
    }
    if Wakeups(s, WakeOf(f)) == 1 {
      WakeupLeft(s, f);
    } else if InSlot(s, f) || InTimer(s, f) || Escapes(s, f) {
      PlaceHoldsWakeup(s, f);
    }
  }

  predicate HoldsExpired(th: Thread, f: nat) { th.pc.Idle? && WakeFiber(f) in th.pc.cbs }

  lemma WaitingEscape(s: Sys, t: nat, f: nat)
    requires NoLoss(s) && ThreadsOk(s) && t < |s.threads| && f < |s.progs| && s.progs[f].Waiting()
    requires EscapesOn(s.threads[t], f)
    ensures HoldsExpired(s.threads[t], f)
  {
    assert Awaited(s, f) && ThreadOk(s, s.threads[t]);
  }

  /** So a fiber still suspended then is in a slot, in a timer, or a sleeper whose expired callback an
      idle thread is about to queue. */
  lemma StoppingForgets(s: Sys, t: nat, f: nat)
    requires HarmlesslyReachable(s) && CanMove(s, t, EndIdle) && f < |s.progs| && s.progs[f].Waiting()
    ensures InSlot(s, f) || InTimer(s, f) || exists u :: 0 <= u < |s.threads| && HoldsExpired(s.threads[u], f)
  {
    HarmlesslyGood(s);
    NoLostWakeup(s, f);
    StoppingLeaves(s, t, f);
    if Escapes(s, f) {
      var u :| 0 <= u < |s.threads| && EscapesOn(s.threads[u], f);
      WaitingEscape(s, u, f);
    }
  }

  // ----- all three reads at one moment

  ghost predicate Quiescent(s: Sys)
  {
    && s.queue == [] && (forall t :: 0 <= t < |s.threads| ==> !HoldsTask(s.threads[t].pc))
    && NoTimers(s) && s.io.kernel == map[] && (forall fd: nat, ev :: !RegisteredAt(s.io, fd, ev))
    && (forall f: nat :: Wakeups(s, WakeOf(f)) == 1 ==> Escapes(s, f))
  }

  lemma NothingRegistered(io: Io)
    requires IoInv(io) && io.pending == 0
    ensures io.kernel == map[] && forall fd: nat, ev :: !RegisteredAt(io, fd, ev)
  {
    forall fd | 0 <= fd < |io.fds| ensures io.fds[fd].et.IsNone() {
      SumAt(io.fds, fd, Bits);
    }
    assert io.kernel.Keys == {};
  }

  /** If what the earlier reads saw still holds at the last one, the system is quiescent; and only then. */
  lemma QuiescentExactly(s: Sys, t: nat)
    requires Reachable(s) && CanMove(s, t, EndIdle)
    ensures Quiescent(s) <==> NoTimers(s) && NoPending(s)
  {
    ReachableInv(s);
    forall u | 0 <= u < |s.threads| ensures !HoldsTask(s.threads[u].pc) {
      LastReadSeesNoTask(s, t, u);
    }
    if NoTimers(s) && NoPending(s) {
      NothingRegistered(s.io);
      forall f: nat | Wakeups(s, WakeOf(f)) == 1 ensures Escapes(s, f) {
        StoppingLeaves(s, t, f);
      }
    } else if Quiescent(s) {
      NoBits(s.io);
    }
  }

  lemma NoBits(io: Io)
    requires IoInv(io) && forall fd: nat, ev :: !RegisteredAt(io, fd, ev)
    ensures io.pending == 0
  {
    forall fd | 0 <= fd < |io.fds| ensures Bits(io.fds[fd]) == 0 {
      assert !RegisteredAt(io, fd, Read) && !RegisteredAt(io, fd, Write);
    }
    SumZero(io.fds, Bits);
  }

  // ----- between the reads

  /** The steps that put a timer into the set. */
  predicate Arms(a: Action)
  {
    || (a.Code? && (a.stmt.Sleep? || (a.stmt.ArmTimeout? && a.stmt.wanted)))
    || (a.Outside? && a.deed.ClientTimer?)
  }

  /** The steps that can register an event. */
  predicate Registers(a: Action) { a.Code? && (a.stmt.RegisterSelf? || a.stmt.RegisterCb? || a.stmt.AddWait?) }

  lemma MoveArmsNothing(s: Sys, t: nat, move: Move)
    requires NoTimers(s) && CanMove(s, t, move)
    ensures NoTimers(DoMove(s, t, move))
  {
    if move.Switch? {
      var task := s.threads[t].pc.entry.task;
      if !(task.FiberTask? && StateOf(s.states, task.fiber).Finished()) {
        SwapInShape(s, t);
      }
    }
  }

  lemma StmtArmsNothing(s: Sys, t: nat, stmt: Stmt)
    requires NoTimers(s) && CanRun(s, t, stmt) && !Arms(Code(t, stmt))
    ensures NoTimers(DoStmt(s, t, stmt))
  {
    if stmt.AddWait? {
      AddWaitTimers(s, t, stmt.fault);
    } else if UsesFds(stmt) {
      FdStmtTimers(s, t, stmt);
    } else if stmt.CancelTimeout? {
      match CodeAt(s, t)
      case CallWoken(_, _, _, _) =>
      case CallFailed(_, _) =>
    }
  }

  lemma DeedArmsNothing(s: Sys, deed: Deed)
    requires NoTimers(s) && CanHappen(s, deed) && !deed.ClientTimer?
    ensures NoTimers(DoDeed(s, deed))
  {
  }

  lemma {:induction false} NoTimersStay(s: Sys, run: seq<Action>)
    requires NoTimers(s) && ValidRun(s, run) && forall i :: 0 <= i < |run| ==> !Arms(run[i])
    ensures NoTimers(After(s, run))
    decreases |run|
  {
    if run != [] {
      match run[0] {
        case Loop(t, move) => MoveArmsNothing(s, t, move);
        case Code(t, stmt) => StmtArmsNothing(s, t, stmt);
        case Outside(deed) => DeedArmsNothing(s, deed);
      }
      NoTimersStay(Do(s, run[0]), run[1..]);
    }
  }

  /** Without a registered event every fd operation but addEvent is refused. */
  lemma DeedRegistersNothing(s: Sys, deed: Deed)
    requires IoInv(s.io) && NoPending(s) && CanHappen(s, deed)
    ensures DoDeed(s, deed).io == s.io
  {
    NothingRegistered(s.io);
    DeedIsOutcome(s, deed);
    if deed.DropEvent? {
      assert !RegisteredAt(s.io, deed.fd, deed.ev);
    } else if deed.Cancel? {
      assert !RegisteredAt(s.io, deed.fd, deed.ev);
    } else if deed.CancelFd? || deed.Report? {
      assert !RegisteredAt(s.io, deed.fd, Read) && !RegisteredAt(s.io, deed.fd, Write);
    }
  }

  lemma StmtRegistersNothing(s: Sys, t: nat, stmt: Stmt)
    requires IoInv(s.io) && NoPending(s) && CanRun(s, t, stmt) && !Registers(Code(t, stmt))
    ensures DoStmt(s, t, stmt).io == s.io
  {
    if UsesFds(stmt) {
      NothingRegistered(s.io);
      StmtIsOutcome(s, t, stmt);
      assert !RegisteredAt(s.io, CodeAt(s, t).fd, CodeAt(s, t).ev);
    } else if ForTimeouts(stmt) {
      TimeoutStmtQuiet(s, t, stmt);
    } else {
      PlainStmtQuiet(s, t, stmt);
    }
  }

  lemma {:induction false} NoPendingStays(s: Sys, run: seq<Action>)
    requires IoInv(s.io) && NoPending(s) && ValidRun(s, run) && forall i :: 0 <= i < |run| ==> !Registers(run[i])
    ensures NoPending(After(s, run))
    decreases |run|
  {
    if run != [] {
      match run[0] {
        case Loop(t, move) => MoveQuiet(s, t, move);
        case Code(t, stmt) => StmtRegistersNothing(s, t, stmt);
        case Outside(deed) => DeedRegistersNothing(s, deed);
      }
      NoPendingStays(Do(s, run[0]), run[1..]);
    }
  }

  /** stopping() on thread `t` from its first read in state `s` to its last, with `r1` and `r2` what
      happens between the reads. */
  ghost predicate Stops(s: Sys, t: nat, r1: seq<Action>, r2: seq<Action>, s': Sys)
  {
    && CanMove(s, t, SeeNoTimers) && ValidRun(DoMove(s, t, SeeNoTimers), r1)
    && var s1 := After(DoMove(s, t, SeeNoTimers), r1);
       && CanMove(s1, t, SeeNoPending) && ValidRun(DoMove(s1, t, SeeNoPending), r2)
       && s' == After(DoMove(s1, t, SeeNoPending), r2) && CanMove(s', t, EndIdle)
  }

  lemma StopsReachable(s: Sys, t: nat, r1: seq<Action>, r2: seq<Action>, s': Sys)
    requires Reachable(s) && Stops(s, t, r1, r2, s')
    ensures Reachable(s') && Reachable(After(DoMove(s, t, SeeNoTimers), r1))
  {
    var s0 := Do(s, Loop(t, SeeNoTimers));
    ReachableStep(s, Loop(t, SeeNoTimers));
    var s1 := After(s0, r1);
    assert Leads(s0, s1);
    ReachableOn(s0, s1);
    ReachableStep(s1, Loop(t, SeeNoPending));
    assert Leads(Do(s1, Loop(t, SeeNoPending)), s');
    ReachableOn(Do(s1, Loop(t, SeeNoPending)), s');
  }

  /** If no timer is armed between the first read and the last and no event registered between the second
      and the last, a successful stopping() finds the system quiescent. */
  lemma StoppingIsQuiescent(s: Sys, t: nat, r1: seq<Action>, r2: seq<Action>, s': Sys)
    requires Reachable(s) && Stops(s, t, r1, r2, s')
    requires forall i :: 0 <= i < |r1| ==> !Arms(r1[i])
    requires forall i :: 0 <= i < |r2| ==> !Arms(r2[i]) && !Registers(r2[i])
    ensures Quiescent(s')
  {
    StopsReachable(s, t, r1, r2, s');
    var s0 := DoMove(s, t, SeeNoTimers);
    NoTimersStay(s0, r1);
    var s1 := After(s0, r1);
    ReachableInv(s1);
    NoTimersStay(DoMove(s1, t, SeeNoPending), r2);
    NoPendingStays(DoMove(s1, t, SeeNoPending), r2);
    QuiescentExactly(s', t);
  }

  // ----- stale answers

  /** Thread 1 has seen no timer and no pending event while a fiber runs on thread 0. */
  lemma TwoReadsDone(n: nat) returns (s: Sys)
    requires n >= 2
    ensures Reachable(s) && |s.threads| == n && s.stop && s.threads[1] == Thread(NoPendingSeen, None, false)
    ensures s.states == [Exec] && s.progs == [Free] && s.queue == [] && s.active == 1
    ensures s.io == InitialIo() && s.timers == []
    ensures s.threads[0].pc.Running? && s.threads[0].pc.fiber == 0 && !s.threads[0].pc.viaCb
  {
    var s0 := OneFiberRunning(n, true);
    var s1 := GoIdle(s0, 1);
    ReachableOn(s0, s1);
    ReachableStep(s1, Loop(1, SeeNoTimers));
    var s2 := Do(s1, Loop(1, SeeNoTimers));
    ReachableStep(s2, Loop(1, SeeNoPending));
    s := Do(s2, Loop(1, SeeNoPending));
  }

  /** The fiber gives up thread 0, which counts down. */
  lemma HoldAndCountDown(s: Sys) returns (s': Sys)
    requires AtYieldPoint(s)
    ensures Leads(s, s') && s'.active == s.active - 1 && s'.queue == s.queue && s'.stop == s.stop
    ensures s'.io == s.io && s'.timers == s.timers && s'.progs == s.progs && s'.states == s.states
    ensures |s'.threads| == |s.threads| && forall u :: 0 < u < |s.threads| ==> s'.threads[u] == s.threads[u]
  {
    OneStep(s, Loop(0, YieldToHold));
    var s1 := Do(s, Loop(0, YieldToHold));
    Then(s, s1, Loop(0, CountDown));
    s' := Do(s1, Loop(0, CountDown));
  }

  predicate AtYieldPoint(s: Sys) { Runs(s, 0) && (CodeAt(s, 0).Free? || CodeAt(s, 0).Waiting()) }

  /** Registering an event between the second read and the last: stopping() is true, and the fiber is
      suspended with its event registered. */
  lemma StaleStopMissesEvent(n: nat) returns (s: Sys)
    requires n >= 2
    ensures Reachable(s) && |s.threads| == n && CanMove(s, 1, EndIdle)
    ensures s.progs == [Registered(ForEvent(0, Read))] && InSlot(s, 0) && s.io.pending != 0
  {
    var s0 := TwoReadsDone(n);
    ReachableStep(s0, Code(0, RegisterSelf(0, Read, false)));
    var s1 := Do(s0, Code(0, RegisterSelf(0, Read, false)));
    s := HoldAndCountDown(s1);
    ReachableOn(s1, s);
    assert RegisteredAt(s.io, 0, Read) && s.io.fds[0].Get(Read).fiber == Some(0);
  }

  /** Likewise going to sleep. */
  lemma StaleStopMissesTimer(n: nat) returns (s: Sys)
    requires n >= 2
    ensures Reachable(s) && |s.threads| == n && CanMove(s, 1, EndIdle)
    ensures s.progs == [Registered(ForTimer)] && InTimer(s, 0)
  {
    var s0 := TwoReadsDone(n);
    ReachableStep(s0, Code(0, Sleep));
    var s1 := Do(s0, Code(0, Sleep));
    s := HoldAndCountDown(s1);
    ReachableOn(s1, s);
    assert s.timers[0] == Some(WakeFiber(0));
  }

  /** At a free point of its code a fiber has no wake-up, so it may call YieldToReady. */
  lemma FreeCanYield(s: Sys, t: nat)
    requires Reachable(s) && AtFree(s, t)
    ensures CanMove(s, t, YieldToReady)
  {
    ReachableInv(s);
    assert ThreadOk(s, s.threads[t]);
  }

  lemma ReadyAndCountDown(s: Sys) returns (s': Sys)
    requires CanMove(s, 0, YieldToReady) && s.threads[0].pc.fiber == 0 && !s.threads[0].pc.viaCb && s.states == [Exec]
    ensures Leads(s, s') && s'.active == s.active - 1 && s'.queue == s.queue && s'.stop == s.stop
    ensures s'.io == s.io && s'.timers == s.timers && s'.states == [FiberState.Ready]
    ensures |s'.threads| == |s.threads| && s'.threads[0].pc == Counted(0, false, ByReady)
    ensures forall u :: 0 < u < |s.threads| ==> s'.threads[u] == s.threads[u]
  {
    OneStep(s, Loop(0, YieldToReady));
    var s1 := Do(s, Loop(0, YieldToReady));
    Then(s, s1, Loop(0, CountDown));
    s' := Do(s1, Loop(0, CountDown));
  }

  /** And with nothing stale, a READY fiber about to be re-queued is missed: the decrement comes first. */
  lemma StoppingCanMissReadyFiber(n: nat) returns (s: Sys)
    requires n >= 2
    ensures Reachable(s) && |s.threads| == n && CanMove(s, 1, EndIdle) && Stopping(s)
    ensures s.threads[0].pc == Counted(0, false, ByReady) && s.states == [FiberState.Ready]
  {
    var s0 := TwoReadsDone(n);
    FreeCanYield(s0, 0);
    s := ReadyAndCountDown(s0);
    ReachableOn(s0, s);
  }
}
