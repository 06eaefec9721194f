/** Runs that show what a timeout can miss: calls that wait with nothing left to time them out, and a callback
    that takes effect after its call has returned. */
module WakeupLate {
  import opened Counting
  import opened Tasks
  import opened FdEvents
  import opened FdEventProofs
  import opened Wakeup
  import opened WakeupInvariant
  import opened WakeupTheorems
  import opened WakeupScenarios
  import opened WakeupGuards

  const CB := TimeoutCall(0, 0, Read)

  // ----- scenes

  lemma TakeExpired(s: Sys, u: nat, i: nat) returns (s': Sys)
    requires AtScan(s, u) && s.queue == [] && s.threads[u] == Thread(Scanning, None, false)
    requires i < |s.timers| && s.timers[i] == Some(CB)
    ensures Leads(s, s') && s' == SetPc(s, u, Idle([CB])).(timers := s.timers[i := None])
  {
    var s1 := GoIdle(s, u);
    Then(s, s1, Loop(u, Expire(i, false)));
    s' := Do(s1, Loop(u, Expire(i, false)));
    assert [] + [CB] == [CB];
    assert s'.threads == s.threads[u := s.threads[u].(pc := Idle([CB]))];
  }

  lemma FlushAndLeave(s: Sys, u: nat) returns (s': Sys)
    requires AtIdle(s, u) && s.threads[u] == Thread(Idle([CB]), None, false) && s.queue == []
    ensures Leads(s, s')
    ensures s' == SetPc(s, u, Scanning).(queue := [Entry(CbTask(CB), ANY_THREAD, s.nextTag)], nextTag := s.nextTag + 1)
  {
    OneStep(s, Loop(u, Flush));
    var s1 := Do(s, Loop(u, Flush));
    Then(s, s1, Loop(u, LeaveIdle));
    s' := Do(s1, Loop(u, LeaveIdle));
  }

  /** An idle thread takes an expired timer's callback and queues it. */
  lemma ExpireAndFlush(s: Sys, u: nat, i: nat) returns (s': Sys)
    requires AtScan(s, u) && s.queue == [] && s.threads[u] == Thread(Scanning, None, false)
    requires i < |s.timers| && s.timers[i] == Some(CB)
    ensures Leads(s, s')
    ensures s' == s.(timers := s.timers[i := None], queue := [Entry(CbTask(CB), ANY_THREAD, s.nextTag)],
      nextTag := s.nextTag + 1)
  {
    var s1 := TakeExpired(s, u, i);
    s' := FlushAndLeave(s1, u);
    LeadsOn(s, s1, s');
    assert s'.threads == s.threads;
  }

  /** ...and runs it on a new fiber. */
  lemma RunCallback(s: Sys, u: nat, i: nat) returns (s': Sys)
    requires AtScan(s, u) && s.queue == [] && s.threads[u] == Thread(Scanning, None, false) && |s.states| == |s.progs|
    requires i < |s.timers| && s.timers[i] == Some(CB)
    ensures Leads(s, s') && s'.progs == s.progs + [TimeoutLock(0, 0, Read)] && s'.states == s.states + [Exec]
    ensures s'.timers == s.timers[i := None] && s'.queue == [] && s'.calls == s.calls && s'.log == s.log
      && s'.io == s.io
    ensures |s'.threads| == |s.threads| && s'.threads == s.threads[u := s'.threads[u]]
    ensures s'.threads[u].pc.Running? && s'.threads[u].pc.fiber == |s.progs|
  {
    var s1 := ExpireAndFlush(s, u, i);
    var s2 := TakeOnly(s1, u);
    LeadsOn(s, s1, s2);
    Then(s, s2, Loop(u, Switch));
    s' := Do(s2, Loop(u, Switch));
  }

  /** The callback gets hold of the timer_info and finds it unmarked. */
  lemma LockAndCheck(s: Sys, u: nat) returns (s': Sys)
    requires AtTimeoutLock(s, u) && CodeAt(s, u) == TimeoutLock(0, 0, Read) && Alive(s, 0) && !CallOf(s, 0).cancelled
    ensures Leads(s, s') && s' == SetProg(s, s.threads[u].pc.fiber, TimeoutSet(0, 0, Read))
  {
    OneStep(s, Code(u, RunTimeoutLock));
    var s1 := Do(s, Code(u, RunTimeoutLock));
    Then(s, s1, Code(u, RunTimeoutCheck));
    s' := Do(s1, Code(u, RunTimeoutCheck));
    assert s'.progs == s.progs[s.threads[u].pc.fiber := TimeoutSet(0, 0, Read)];
  }

  /** The first call begins and arms its timer. */
  lemma CallWithTimer(n: nat) returns (s: Sys)
    requires n > 0
    ensures Reachable(s) && |s.threads| == n && s.io == InitialIo() && s.queue == [] && s.states == [Exec]
    ensures s.progs == [CallAdd(0, 0, Read, Some(0))] && s.timers == [Some(CB)]
    ensures s.calls == [Call(true, false, 0, Read)]
    ensures s.log == [Event.Armed(0)]
    ensures s.threads[0].pc.Running? && s.threads[0].pc.fiber == 0 && !s.threads[0].pc.viaCb
    ensures forall t :: 0 < t < n ==> s.threads[t] == Thread(Scanning, None, false)
  {
    var s0 := OneFiberRunning(n, false);
    ReachableStep(s0, Code(0, BeginCall(0, Read)));
    var s1 := Do(s0, Code(0, BeginCall(0, Read)));
    ReachableStep(s1, Code(0, ArmTimeout(true)));
    s := Do(s1, Code(0, ArmTimeout(true)));
  }

  // ----- waits without a timeout

  /** The event of the call is registered, or it is not. */
  predicate EventAt(io: Io, registered: bool)
  {
    && 0 < |io.fds| && io.fds[0].et == Mask(registered, false) && (registered ==> io.fds[0].read.fiber == Some(0))
    && (!registered ==> io.fds[0].read.Empty())
  }

  /** The timer expires before addEvent: the callback marks the call and finds no event to cancel. */
  lemma FireEarly(s: Sys) returns (s': Sys)
    requires Runs(s, 1) && CodeAt(s, 1) == TimeoutSet(0, 0, Read) && s.threads[1].pc.fiber == 1
    requires s.calls == [Call(true, false, 0, Read)] && EventAt(s.io, false) && |s.progs| == 2
    ensures Leads(s, s') && s'.io == s.io && s'.threads == s.threads && s'.timers == s.timers && s'.states == s.states
    ensures s'.progs == [s.progs[0], Free] && s'.log == s.log + [TimerRan(0)] && s'.queue == s.queue
  {
    OneStep(s, Code(1, RunTimeoutSet));
    var s1 := Do(s, Code(1, RunTimeoutSet));
    assert CancelEvent(s1.io, 0, Read, false) == Refused(s1.io);
    Then(s, s1, Code(1, RunTimeoutFire(false)));
    s' := Do(s1, Code(1, RunTimeoutFire(false)));
  }

  /** So the call then waits with its timer gone, no callback on its way, and nothing left to time it out. */
  lemma LostTimeout() returns (s: Sys)
    ensures Reachable(s) && s.progs == [CallWait(0, 0, Read, Some(0)), Free] && s.timers == [None]
    ensures Wakeups(s, TimeoutOf(0)) == 0 && Lost(s, 0)
  {
    var s0 := CallWithTimer(2);
    var s1 := RunCallback(s0, 1, 0);
    var s2 := LockAndCheck(s1, 1);
    LeadsOn(s0, s1, s2);
    var s3 := FireEarly(s2);
    LeadsOn(s0, s2, s3);
    ReachableOn(s0, s3);
    s := WaitAfterAll(s3);
  }

  lemma WaitAfterAll(s: Sys) returns (s': Sys)
    requires Reachable(s) && s.io == InitialIo() && s.progs == [CallAdd(0, 0, Read, Some(0)), Free]
      && s.timers == [None]
    requires Runs(s, 0) && s.threads[0].pc.fiber == 0 && s.log == [Event.Armed(0), TimerRan(0)]
    ensures Reachable(s') && s'.progs == [CallWait(0, 0, Read, Some(0)), Free] && s'.timers == [None] && s'.log == s.log
    ensures Wakeups(s', TimeoutOf(0)) == 0 && Lost(s', 0)
  {
    assert AddEvent(s.io, 0, Read, FiberTask(0), false).Done?;
    ReachableStep(s, Code(0, AddWait(false)));
    s' := Do(s, Code(0, AddWait(false)));
    NoneLeft(s');
    assert s'.log[1] == TimerRan(0);
  }

  /** As many callbacks have run as timers were armed. */
  lemma NoneLeft(s: Sys)
    requires Reachable(s) && s.log == [Event.Armed(0), TimerRan(0)]
    ensures Wakeups(s, TimeoutOf(0)) == 0
  {
    ReachableInv(s);
    assert CallOk(s, 0);
    SumAppend([Event.Armed(0)], [TimerRan(0)], RanFor(0));
    SumAppend([Event.Armed(0)], [TimerRan(0)], ArmedFor(0));
    SumOne(Event.Armed(0), RanFor(0));
    SumOne(Event.Armed(0), ArmedFor(0));
    SumOne(TimerRan(0), RanFor(0));
    SumOne(TimerRan(0), ArmedFor(0));
  }

  // ----- a callback that takes effect after the return

  lemma Register(s: Sys, i: nat) returns (s': Sys)
    requires IoInv(s.io) && EventAt(s.io, false) && Runs(s, 0) && s.threads[0].pc.fiber == 0
    requires CodeAt(s, 0) == CallAdd(0, 0, Read, Some(i))
    ensures Leads(s, s') && s' == s.(io := s'.io, progs := s.progs[0 := CallWait(0, 0, Read, Some(i))])
    ensures IoInv(s'.io) && EventAt(s'.io, true)
  {
    AddEventKeeps(s.io, 0, Read, FiberTask(0), false);
    OneStep(s, Code(0, AddWait(false)));
    s' := Do(s, Code(0, AddWait(false)));
    assert s'.log == s.log && s'.queue == s.queue;
  }

  lemma Wake(s: Sys) returns (s': Sys)
    requires IoInv(s.io) && EventAt(s.io, true) && s.queue == []
    ensures Leads(s, s') && s' == s.(io := s'.io, queue := s'.queue, log := s'.log, nextTag := s'.nextTag)
    ensures |s'.queue| == 1 && s'.queue[0].task == FiberTask(0) && s'.queue[0].thread == ANY_THREAD
    ensures IoInv(s'.io) && EventAt(s'.io, false)
  {
    assert FdArmed(s.io.fds[0]);
    CancelEventKeeps(s.io, 0, Read, false, OfReg(0));
    OneStep(s, Outside(Cancel(0, Read, false)));
    s' := Do(s, Outside(Cancel(0, Read, false)));
  }

  lemma WaitOnce(s: Sys) returns (s': Sys)
    requires IoInv(s.io) && EventAt(s.io, false) && |s.progs| == 2
    requires Runs(s, 0) && s.threads[0].pc.fiber == 0 && CodeAt(s, 0) == CallAdd(0, 0, Read, Some(0))
    requires s.states == [Exec, Exec]
    ensures Leads(s, s') && IoInv(s'.io) && EventAt(s'.io, true) && s'.timers == s.timers && s'.calls == s.calls
    ensures s'.queue == s.queue && s'.progs == s.progs[0 := CallWait(0, 0, Read, Some(0))] && AtScan(s', 0)
    ensures s'.states == [FiberState.Hold, Exec]
    ensures |s'.threads| == |s.threads| && forall u :: 0 < u < |s.threads| ==> s'.threads[u] == s.threads[u]
  {
    var s1 := Register(s, 0);
    s' := Suspend(s1, 0);
    LeadsOn(s, s1, s');
  }

  /** The call waits, and is woken by a cancelEvent of its event. */
  lemma FirstRound(s: Sys) returns (s': Sys)
    requires IoInv(s.io) && EventAt(s.io, false) && s.queue == [] && |s.progs| == 2 && s.states == [Exec, Exec]
    requires Runs(s, 0) && s.threads[0].pc.fiber == 0 && CodeAt(s, 0) == CallAdd(0, 0, Read, Some(0))
    ensures Leads(s, s') && s'.states == s.states && s'.timers == s.timers && s'.calls == s.calls && s'.queue == []
    ensures s'.progs == s.progs[0 := CallWoken(0, 0, Read, Some(0))] && Runs(s', 0) && s'.threads[0].pc.fiber == 0
    ensures |s'.threads| == |s.threads| && forall u :: 0 < u < |s.threads| ==> s'.threads[u] == s.threads[u]
    ensures IoInv(s'.io) && EventAt(s'.io, false)
  {
    var s1 := WaitOnce(s);
    var s2 := Wake(s1);
    LeadsOn(s, s1, s2);
    s' := Resume(s2, 0, 0);
    LeadsOn(s, s2, s');
  }

  /** A callback of the call stands past its check on thread 1 while the call has waited and been woken. */
  lemma WokenOnce(n: nat) returns (s: Sys)
    requires n >= 2
    ensures Reachable(s) && |s.threads| == n && |s.states| == 2 && s.timers == [None] && s.queue == []
    ensures s.calls == [Call(true, false, 0, Read)] && IoInv(s.io) && EventAt(s.io, false)
    ensures s.progs == [CallWoken(0, 0, Read, Some(0)), TimeoutSet(0, 0, Read)]
    ensures Runs(s, 0) && s.threads[0].pc.fiber == 0 && Runs(s, 1) && s.threads[1].pc.fiber == 1
    ensures forall t :: 1 < t < n ==> s.threads[t] == Thread(Scanning, None, false)
  {
    var s0 := CallWithTimer(n);
    var s1 := RunCallback(s0, 1, 0);
    var s2 := LockAndCheck(s1, 1);
    LeadsOn(s0, s1, s2);
    FreshIoInv(INITIAL_FDS);
    s := FirstRound(s2);
    LeadsOn(s0, s2, s);
    ReachableOn(s0, s);
  }

  lemma NoTimeoutYet(s: Sys) returns (s': Sys)
    requires Runs(s, 0) && s.threads[0].pc.fiber == 0 && CodeAt(s, 0) == CallWoken(0, 0, Read, Some(0))
    requires s.timers == [None] && s.calls == [Call(true, false, 0, Read)]
    ensures Leads(s, s') && s' == s.(progs := s.progs[0 := CallRetry(0, 0, Read)])
  {
    OneStep(s, Code(0, CancelTimeout));
    var s1 := Do(s, Code(0, CancelTimeout));
    assert s1.timers == s.timers;
    Then(s, s1, Code(0, CheckTimeout));
    s' := Do(s1, Code(0, CheckTimeout));
    assert s'.progs == s.progs[0 := CallRetry(0, 0, Read)];
  }

  lemma BlockAndArm(s: Sys) returns (s': Sys)
    requires Runs(s, 0) && s.threads[0].pc.fiber == 0 && CodeAt(s, 0) == CallRetry(0, 0, Read) && s.timers == [None]
    ensures Leads(s, s')
    ensures s' == s.(progs := s.progs[0 := CallAdd(0, 0, Read, Some(1))], timers := [None, Some(CB)],
      log := s.log + [Event.Armed(0)])
  {
    OneStep(s, Code(0, RawAgain(true)));
    var s1 := Do(s, Code(0, RawAgain(true)));
    Then(s, s1, Code(0, ArmTimeout(true)));
    s' := Do(s1, Code(0, ArmTimeout(true)));
    assert s'.progs == s.progs[0 := CallAdd(0, 0, Read, Some(1))];
  }

  /** No timeout so far; the raw call would block again, and a second timer is armed. */
  lemma SecondRound(s: Sys) returns (s': Sys)
    requires Runs(s, 0) && s.threads[0].pc.fiber == 0 && CodeAt(s, 0) == CallWoken(0, 0, Read, Some(0))
    requires s.timers == [None] && s.calls == [Call(true, false, 0, Read)]
    ensures Leads(s, s') && s'.progs == s.progs[0 := CallAdd(0, 0, Read, Some(1))] && s'.timers == [None, Some(CB)]
    ensures s'.calls == s.calls && s'.threads == s.threads && s'.states == s.states && s'.queue == s.queue
      && s'.io == s.io
  {
    var s1 := NoTimeoutYet(s);
    s' := BlockAndArm(s1);
    LeadsOn(s, s1, s');
  }

  /** A call can be lost with its timer armed: a callback of the first round marks it after its check and before
      its second addEvent, and the second timer's callback will find the mark and do nothing. */
  lemma LostWithTimerArmed() returns (s: Sys)
    ensures Reachable(s) && s.progs == [CallWait(0, 0, Read, Some(1)), Free] && s.timers == [None, Some(CB)]
    ensures EventAt(s.io, true) && Lost(s, 0)
  {
    var s0 := WokenOnce(2);
    var s1 := NoTimeoutYet(s0);
    s := MarkArmAndWait(s1);
    LeadsOn(s0, s1, s);
    ReachableOn(s0, s);
  }

  lemma MarkArmAndWait(s: Sys) returns (s': Sys)
    requires IoInv(s.io) && EventAt(s.io, false) && Runs(s, 0) && s.threads[0].pc.fiber == 0
    requires Runs(s, 1) && s.threads[1].pc.fiber == 1 && s.progs == [CallRetry(0, 0, Read), TimeoutSet(0, 0, Read)]
    requires s.timers == [None] && s.calls == [Call(true, false, 0, Read)]
    ensures Leads(s, s') && s'.progs == [CallWait(0, 0, Read, Some(1)), Free] && s'.timers == [None, Some(CB)]
    ensures EventAt(s'.io, true) && Lost(s', 0)
  {
    var s1 := FireEarly(s);
    var s2 := BlockAndArm(s1);
    LeadsOn(s, s1, s2);
    s' := Register(s2, 1);
    LeadsOn(s, s2, s');
    assert s'.log[|s.log|] == TimerRan(0);
  }

  /** addEvent fails and the call returns. */
  lemma FailAndReturn(s: Sys) returns (s': Sys)
    requires IoInv(s.io) && EventAt(s.io, false) && Runs(s, 0) && s.threads[0].pc.fiber == 0
    requires CodeAt(s, 0) == CallAdd(0, 0, Read, Some(1)) && s.calls == [Call(true, false, 0, Read)]
    ensures Leads(s, s') && s'.progs == s.progs[0 := Free] && s'.calls == [Call(false, false, 0, Read)]
    ensures Returned(0) in s'.log && s'.threads == s.threads && s'.states == s.states
  {
    AddEventKeeps(s.io, 0, Read, FiberTask(0), true);
    OneStep(s, Code(0, AddWait(true)));
    var s1 := Do(s, Code(0, AddWait(true)));
    Then(s, s1, Code(0, CancelTimeout));
    s' := Do(s1, Code(0, CancelTimeout));
    assert s'.log[|s'.log| - 1] == Returned(0);
  }

  lemma SecondCallbackFires(s: Sys) returns (s': Sys)
    requires Runs(s, 2) && s.threads[2].pc.fiber == 2 && |s.progs| == 3 && s.progs[1] == TimeoutSet(0, 0, Read)
    requires s.progs[2] == TimeoutLock(0, 0, Read) && s.calls == [Call(false, false, 0, Read)]
    ensures Leads(s, s') && Runs(s', 2) && CodeAt(s', 2) == TimeoutFire(0, 0, Read)
    ensures s'.calls == [Call(false, true, 0, Read)]
    ensures s'.log == s.log + [TimerRan(0)]
  {
    assert s.progs[1].Holds(0);
    var s1 := LockAndCheck(s, 2);
    Then(s, s1, Code(2, RunTimeoutSet));
    s' := Do(s1, Code(2, RunTimeoutSet));
  }

  /** One callback of the call stands between its lock and its set; the call has retried, armed a second
      timer and returned; and the second timer's callback is about to lock. */
  lemma TwoCallbacks() returns (s: Sys)
    ensures Reachable(s) && Returned(0) in s.log && s.calls == [Call(false, false, 0, Read)] && |s.progs| == 3
    ensures s.progs[1] == TimeoutSet(0, 0, Read) && AtTimeoutLock(s, 2) && s.threads[2].pc.fiber == 2
    ensures CodeAt(s, 2) == TimeoutLock(0, 0, Read)
  {
    var s0 := WokenOnce(3);
    var s1 := SecondRound(s0);
    s := ExpireAndReturn(s1);
    LeadsOn(s0, s1, s);
    ReachableOn(s0, s);
  }

  lemma ExpireAndReturn(s: Sys) returns (s': Sys)
    requires IoInv(s.io) && EventAt(s.io, false) && Runs(s, 0) && s.threads[0].pc.fiber == 0 && s.queue == []
    requires s.progs == [CallAdd(0, 0, Read, Some(1)), TimeoutSet(0, 0, Read)] && |s.states| == 2
    requires s.calls == [Call(true, false, 0, Read)] && s.timers == [None, Some(CB)]
    requires |s.threads| == 3 && s.threads[2] == Thread(Scanning, None, false)
    ensures Leads(s, s') && Returned(0) in s'.log && s'.calls == [Call(false, false, 0, Read)] && |s'.progs| == 3
    ensures s'.progs[1] == TimeoutSet(0, 0, Read) && AtTimeoutLock(s', 2) && s'.threads[2].pc.fiber == 2
    ensures CodeAt(s', 2) == TimeoutLock(0, 0, Read)
  {
    var s1 := RunCallback(s, 2, 1);
    s' := FailAndReturn(s1);
    LeadsOn(s, s1, s');
  }

  /** The second callback then locks through the first one, marks the dead call's timer_info and goes on to
      cancel the event, whoever waits for it by then. */
  lemma LateCallbackFires() returns (s: Sys, s': Sys)
    ensures Reachable(s) && AtTimeoutLock(s, 2) && Returned(CodeAt(s, 2).call) in s.log
    ensures Leads(s, s') && AtTimeoutFire(s', 2) && s'.log == s.log + [TimerRan(CodeAt(s, 2).call)]
  {
    s := TwoCallbacks();
    s' := SecondCallbackFires(s);
  }
}
