/** What the steps do along each path through the source, in the state's own fields. */
module WakeupSteps {
  import opened Tasks
  import opened FdEvents
  import opened FdEventProofs
  import opened Wakeup
  import opened WakeupInvariant
  import opened WakeupOutcomes

  // ----- the scan, and what comes of the entry it takes

  /** The scan takes the first entry that is not pinned to another thread and not a fiber in EXEC, and leaves the
      others in their order. */
  lemma ScanTakesFirst(s: Sys, t: nat, i: nat)
    requires AtScan(s, t) && i < |s.queue|
    requires forall j :: 0 <= j < i ==>
      var e := s.queue[j];
      || (e.thread != -1 && e.thread != t)
      || (e.task.FiberTask? && e.task.fiber < |s.states| && s.states[e.task.fiber].Exec?)
    requires s.queue[i].thread == -1 || s.queue[i].thread == t
    requires s.queue[i].task.FiberTask? && s.queue[i].task.fiber < |s.states| ==> !s.states[s.queue[i].task.fiber].Exec?
    ensures var s' := DoMove(s, t, Scan);
            && s' == s.(queue := s.queue[..i] + s.queue[i + 1..], active := s.active + 1, threads := s'.threads)
            && s'.threads == s.threads[t := s.threads[t].(pc := Picked(s.queue[i]))]
  {
    FirstEligibleExactly(s.queue, t, s.states, i);
  }

  /** If there is none the thread goes to its idle fiber, or leaves once that has ended. */
  lemma ScanFindsNothing(s: Sys, t: nat)
    requires AtScan(s, t)
    requires forall j :: 0 <= j < |s.queue| ==>
      var e := s.queue[j];
      || (e.thread != -1 && e.thread != t)
      || (e.task.FiberTask? && e.task.fiber < |s.states| && s.states[e.task.fiber].Exec?)
    ensures var s' := DoMove(s, t, Scan);
            && s' == s.(threads := s'.threads)
            && s'.threads == s.threads[t := s.threads[t].(pc := if s.threads[t].idleOver then Exited else Idle([]))]
  {
    FirstEligibleExactly(s.queue, t, s.states, |s.queue|);
  }

  /** The entry of a fiber that has ended is dropped; any other fiber is switched to, its state EXEC. */
  lemma TakenFiberRuns(s: Sys, t: nat, f: nat)
    requires AtPicked(s, t) && s.threads[t].pc.entry.task == FiberTask(f) && f < |s.states| == |s.progs|
    ensures var s', e := DoMove(s, t, Switch), s.threads[t].pc.entry;
            if s.states[f].Term? || s.states[f].Except? then
              s' == s.(active := s.active - 1, log := s.log + [Consumed(e.tag)],
                       threads := s.threads[t := s.threads[t].(pc := Scanning)])
            else
              && s' == s.(states := s.states[f := Exec], progs := s.progs[f := s'.progs[f]],
                          threads := s.threads[t := s.threads[t].(pc := Running(f, false, e))])
              && (s.progs[f].Registered? ==> s'.progs[f].Free?)
              && (s.progs[f].CallWait? ==>
                    s'.progs[f] == CallWoken(s.progs[f].call, s.progs[f].fd, s.progs[f].ev, s.progs[f].timer))
              && (!s.progs[f].Registered? && !s.progs[f].CallWait? ==> s'.progs[f] == s.progs[f])
  {
    assert SwapIn(s, t, f, false, s.threads[t].pc.entry).progs == s.progs[f := s.progs[f].Resumed()];
  }

  /** A callback runs on the thread's cached fiber, or on a new one. */
  lemma TakenCallbackRuns(s: Sys, t: nat, c: Closure)
    requires AtPicked(s, t) && s.threads[t].pc.entry.task == CbTask(c) && |s.states| == |s.progs|
    requires s.threads[t].cbFiber.Some? ==> s.threads[t].cbFiber.value < |s.states|
    ensures var s', e, th := DoMove(s, t, Switch), s.threads[t].pc.entry, s.threads[t];
            var g := if th.cbFiber.Some? then th.cbFiber.value else |s.states|;
            && s' == s.(states := s'.states, progs := s'.progs, threads := s'.threads)
            && s'.threads == s.threads[t := Thread(Running(g, true, e), None, th.idleOver)]
            && s'.states == s.states[..g] + [Exec] + s.states[if g < |s.states| then g + 1 else g..]
            && |s'.progs| == |s'.states| && (forall h :: 0 <= h < |s.progs| && h != g ==> s'.progs[h] == s.progs[h])
            && (c.WakeFiber? ==> s'.progs[g] == WakeOther(c.fiber))
            && (c.TimeoutCall? ==> s'.progs[g] == TimeoutLock(c.call, c.fd, c.ev))
            && (c.Client? ==> s'.progs[g] == Free)
  {
  }

  // ----- a fiber that gives up its thread

  /** From the switch back through the decrement: a READY fiber is queued at the back for any thread, one that still
      runs is put on HOLD, and one that has ended is kept for the next callback if it ran one. */
  lemma LeavingSettles(s: Sys, t: nat, f: nat)
    requires AtYielded(s, t) && s.threads[t].pc.fiber == f && f < |s.states|
    ensures var th, s1 := s.threads[t], DoMove(s, t, CountDown);
            && CanMove(s1, t, Settle) && s1.queue == s.queue && s1.states == s.states && s1.active == s.active - 1
            && s1.log == s.log + [Consumed(th.pc.entry.tag)]
            && var s' := DoMove(s1, t, Settle);
               && s' == s1.(threads := s'.threads, states := s'.states, queue := s'.queue, nextTag := s'.nextTag)
               && (forall u :: 0 <= u < |s.threads| && u != t ==> s'.threads[u] == s.threads[u])
               && |s'.threads| == |s.threads| && s'.threads[t].pc == Scanning
               && s'.threads[t].idleOver == th.idleOver
               && (s.states[f].Ready? ==> s'.queue == s.queue + [Entry(FiberTask(f), -1, s.nextTag)])
               && (!s.states[f].Ready? ==> s'.queue == s.queue && s'.nextTag == s.nextTag)
               && s'.states == s.states[f := s'.states[f]]
               && (s.states[f].Ready? ==> s'.states[f].Ready?)
               && (s.states[f].Exec? || s.states[f].Hold? || s.states[f].Init? ==> s'.states[f].Hold?)
               && (s.states[f].Term? || s.states[f].Except? ==>
                     s'.states[f] == if th.pc.viaCb then Init else s.states[f])
               && s'.threads[t].cbFiber == if (s.states[f].Term? || s.states[f].Except?) && th.pc.viaCb
                                           then Some(f) else th.cbFiber
  {
  }

  /** Giving up the thread changes no more than the fiber's own state: not at all for YieldToHold, to READY for
      YieldToReady, to how it ended otherwise. */
  lemma LeavingExactly(s: Sys, t: nat, f: nat, move: Move)
    requires CanMove(s, t, move) && (move.YieldToHold? || move.YieldToReady? || move.End?)
    requires s.threads[t].pc.fiber == f && f < |s.states|
    ensures var s', pc := DoMove(s, t, move), s.threads[t].pc;
            && s' == s.(states := s'.states, threads := s'.threads)
            && s'.states == (if move.YieldToHold? then s.states
                             else s.states[f := if move.YieldToReady? then FiberState.Ready else move.st])
            && (forall u :: 0 <= u < |s.threads| && u != t ==> s'.threads[u] == s.threads[u])
            && |s'.threads| == |s.threads| && s'.threads[t].pc.Yielded? && s'.threads[t].pc.fiber == f
            && s'.threads[t].pc.entry == pc.entry && s'.threads[t].pc.viaCb == pc.viaCb
            && s'.threads[t].cbFiber == s.threads[t].cbFiber
  {
  }

  // ----- timers, from the set to the queue

  /** An idle thread takes a due timer's callback behind those it took before; only a recurring timer stays armed. */
  lemma ExpireTakes(s: Sys, t: nat, i: nat, recurring: bool)
    requires CanMove(s, t, Expire(i, recurring))
    ensures var s', cbs := DoMove(s, t, Expire(i, recurring)), s.threads[t].pc.cbs + [s.timers[i].value];
            && s' == s.(timers := s'.timers, threads := s.threads[t := s.threads[t].(pc := Idle(cbs))])
            && s'.timers == if recurring then s.timers else s.timers[i := None]
  {
  }

  /** The callbacks it has taken come to the back of the queue, in their order, for any thread. */
  lemma FlushQueues(s: Sys, t: nat)
    requires CanMove(s, t, Flush)
    ensures var s', cbs := DoMove(s, t, Flush), s.threads[t].pc.cbs;
            && s' == s.(queue := s'.queue, nextTag := s.nextTag + |cbs|, threads := s'.threads)
            && |s'.queue| == |s.queue| + |cbs| && s'.queue[..|s.queue|] == s.queue
            && (forall k :: 0 <= k < |cbs| ==> s'.queue[|s.queue| + k] == Entry(CbTask(cbs[k]), -1, s.nextTag + k))
            && s'.threads == s.threads[t := s.threads[t].(pc := Idle([]))]
  {
  }

  /** A sleep arms a timer for its own fiber, and that timer's callback queues it. */
  lemma SleepExactly(s: Sys, t: nat)
    requires CanRun(s, t, Sleep)
    ensures var s', f := DoStmt(s, t, Sleep), s.threads[t].pc.fiber;
            s' == s.(timers := s.timers + [Some(WakeFiber(f))], progs := s.progs[f := Registered(ForTimer)])
  {
  }

  lemma WakeSleeperExactly(s: Sys, t: nat)
    requires CanRun(s, t, WakeSleeper)
    ensures var s', f := DoStmt(s, t, WakeSleeper), s.threads[t].pc.fiber;
            s' == s.(queue := s.queue + [Entry(FiberTask(s.progs[f].fiber), -1, s.nextTag)],
                     nextTag := s.nextTag + 1, progs := s.progs[f := Free])
  {
  }

  // ----- a hooked call

  /** An fd operation that triggers nothing changes no more than the table. */
  lemma OnlyTheTable(s: Sys, o: Outcome)
    requires o.Refused? || (o.Done? && o.woken == [])
    ensures Absorb(s, o) == s.(io := o.io)
  {
  }

  /** A call that would block arms a timer with its own fd and event if it has a timeout, and none otherwise. */
  lemma CallArms(s: Sys, t: nat, fd: nat, ev: EventType, wanted: bool)
    requires CanRun(s, t, BeginCall(fd, ev))
    ensures var s1, f, c := DoStmt(s, t, BeginCall(fd, ev)), s.threads[t].pc.fiber, |s.calls|;
            && CanRun(s1, t, ArmTimeout(wanted))
            && var s' := DoStmt(s1, t, ArmTimeout(wanted));
               && s' == s.(calls := s.calls + [Call(true, false, fd, ev)], timers := s'.timers, log := s'.log,
                           progs := s.progs[f := s'.progs[f]])
               && s'.timers == (if wanted then s.timers + [Some(TimeoutCall(c, fd, ev))] else s.timers)
               && s'.log == (if wanted then s.log + [Event.Armed(c)] else s.log)
               && s'.progs[f] == CallAdd(c, fd, ev, if wanted then Some(|s.timers|) else None)
  {
    var s1, f := DoStmt(s, t, BeginCall(fd, ev)), s.threads[t].pc.fiber;
    assert s1.progs == s.progs[f := CallArm(|s.calls|, fd, ev)];
    assert DoStmt(s1, t, ArmTimeout(wanted)).progs == s.progs[f := DoStmt(s1, t, ArmTimeout(wanted)).progs[f]];
  }

  /** addEvent puts the call's own fiber into the slot of its event; if that fails the call gives up, its timer is
      cancelled, and it returns. */
  lemma CallAdds(s: Sys, t: nat, fault: bool)
    requires IoInv(s.io) && CanRun(s, t, AddWait(fault))
    ensures var CallAdd(c, fd, ev, timer) := CodeAt(s, t);
            var s', f := DoStmt(s, t, AddWait(fault)), s.threads[t].pc.fiber;
            && s' == s.(io := s'.io, progs := s'.progs)
            && s'.progs == s.progs[f := if fault then CallFailed(c, timer) else CallWait(c, fd, ev, timer)]
            && s'.io.pending == s.io.pending + (if fault then 0 else 1)
            && (!fault ==> fd < |Grow(s.io, fd).fds|
                           && Registers(Grow(s.io, fd).fds, s'.io.fds, fd, ev, FiberTask(f), s.io.nextReg))
  {
    var CallAdd(c, fd, ev, timer) := CodeAt(s, t);
    AddEventKeeps(s.io, fd, ev, FiberTask(s.threads[t].pc.fiber), fault);
    OnlyTheTable(s, AddEvent(s.io, fd, ev, FiberTask(s.threads[t].pc.fiber), fault));
    if !fault {
      AddEventRegisters(s.io, fd, ev, FiberTask(s.threads[t].pc.fiber), fault);
    }
  }

  lemma FailedCallReturns(s: Sys, t: nat, c: nat, timer: Option<nat>)
    requires CanRun(s, t, CancelTimeout) && CodeAt(s, t) == CallFailed(c, timer) && c < |s.calls|
    ensures var s', f := DoStmt(s, t, CancelTimeout), s.threads[t].pc.fiber;
            && s' == s.(timers := s'.timers, calls := s.calls[c := s.calls[c].(live := false)],
                        progs := s.progs[f := Free], log := s.log + [Returned(c)])
            && s'.timers == if timer.Some? && timer.value < |s.timers| then s.timers[timer.value := None] else s.timers
  {
  }

  /** After its wait a call cancels its timer; it returns ETIMEDOUT if it was cancelled, and otherwise tries the raw
      call again. */
  lemma WokenCallChecks(s: Sys, t: nat, c: nat, fd: nat, ev: EventType, timer: Option<nat>)
    requires CanRun(s, t, CancelTimeout) && CodeAt(s, t) == CallWoken(c, fd, ev, timer) && c < |s.calls|
    ensures var s1, f := DoStmt(s, t, CancelTimeout), s.threads[t].pc.fiber;
            && s1 == s.(timers := s1.timers, progs := s.progs[f := CallCheck(c, fd, ev)])
            && s1.timers == (if timer.Some? && timer.value < |s.timers| then s.timers[timer.value := None]
                             else s.timers)
            && CanRun(s1, t, CheckTimeout)
            && var s' := DoStmt(s1, t, CheckTimeout);
               if s.calls[c].cancelled then
                 s' == s1.(calls := s.calls[c := s.calls[c].(live := false)], progs := s.progs[f := Free],
                           log := s.log + [TimedOut(c)])
               else
                 s' == s1.(progs := s.progs[f := CallRetry(c, fd, ev)])
  {
    var s1, f := DoStmt(s, t, CancelTimeout), s.threads[t].pc.fiber;
    assert s1.progs == s.progs[f := CallCheck(c, fd, ev)];
    assert DoStmt(s1, t, CheckTimeout).progs == s.progs[f := DoStmt(s1, t, CheckTimeout).progs[f]];
  }

  /** The call starts another round if and only if the raw call would block again; otherwise it returns. */
  lemma RetryExactly(s: Sys, t: nat, blocks: bool)
    requires CanRun(s, t, RawAgain(blocks)) && CodeAt(s, t).call < |s.calls|
    ensures var CallRetry(c, fd, ev) := CodeAt(s, t);
            var s', f := DoStmt(s, t, RawAgain(blocks)), s.threads[t].pc.fiber;
            if blocks then s' == s.(progs := s.progs[f := CallArm(c, fd, ev)])
            else s' == s.(calls := s.calls[c := s.calls[c].(live := false)], progs := s.progs[f := Free],
                          log := s.log + [Returned(c)])
  {
  }

  /** A timeout callback past its check marks its own call and no other, and goes on to cancel the same event. */
  lemma CallbackMarks(s: Sys, t: nat)
    requires CanRun(s, t, RunTimeoutSet) && CodeAt(s, t).call < |s.calls|
    ensures var TimeoutSet(c, fd, ev) := CodeAt(s, t);
            var s', f := DoStmt(s, t, RunTimeoutSet), s.threads[t].pc.fiber;
            s' == s.(calls := s.calls[c := s.calls[c].(cancelled := true)], log := s.log + [TimerRan(c)],
                     progs := s.progs[f := TimeoutFire(c, fd, ev)])
  {
  }

  // ----- what other code does

  /** schedule puts a new fiber, a callback or a parked fiber at the back of the queue, for the thread asked for. */
  lemma ScheduleExactly(s: Sys, id: nat, g: nat, thread: int)
    ensures DoDeed(s, Spawn(thread)) ==
      s.(states := s.states + [Init], progs := s.progs + [Free], nextTag := s.nextTag + 1,
         queue := s.queue + [Entry(FiberTask(|s.states|), thread, s.nextTag)])
    ensures DoDeed(s, SpawnCb(id, thread)) ==
      s.(nextTag := s.nextTag + 1, queue := s.queue + [Entry(CbTask(Client(id)), thread, s.nextTag)])
    ensures CanHappen(s, ScheduleParked(g, thread)) ==>
      DoDeed(s, ScheduleParked(g, thread)) ==
        s.(nextTag := s.nextTag + 1, queue := s.queue + [Entry(FiberTask(g), thread, s.nextTag)])
    ensures DoDeed(s, ClientTimer(id)) == s.(timers := s.timers + [Some(Client(id))])
    ensures DoDeed(s, RequestStop) == s.(stop := true)
  {
  }

  lemma ScheduleSelfExactly(s: Sys, t: nat, thread: int)
    requires CanRun(s, t, ScheduleSelf(thread))
    ensures var s', f := DoStmt(s, t, ScheduleSelf(thread)), s.threads[t].pc.fiber;
            s' == s.(progs := s.progs[f := Registered(ForQueue)], nextTag := s.nextTag + 1,
                     queue := s.queue + [Entry(FiberTask(f), thread, s.nextTag)])
  {
  }

  /** A fiber that registers itself is in the slot of that event... */
  lemma RegisterSelfExactly(s: Sys, t: nat, fd: nat, ev: EventType, fault: bool)
    requires IoInv(s.io) && CanRun(s, t, RegisterSelf(fd, ev, fault))
    ensures var s', f := DoStmt(s, t, RegisterSelf(fd, ev, fault)), s.threads[t].pc.fiber;
            && s' == s.(io := s'.io, progs := if fault then s.progs else s.progs[f := Registered(ForEvent(fd, ev))])
            && (!fault ==> fd < |Grow(s.io, fd).fds|
                           && Registers(Grow(s.io, fd).fds, s'.io.fds, fd, ev, FiberTask(f), s.io.nextReg))
  {
    AddEventKeeps(s.io, fd, ev, FiberTask(s.threads[t].pc.fiber), fault);
    OnlyTheTable(s, AddEvent(s.io, fd, ev, FiberTask(s.threads[t].pc.fiber), fault));
    if !fault {
      AddEventRegisters(s.io, fd, ev, FiberTask(s.threads[t].pc.fiber), fault);
    }
  }

  /** ...and a callback that is registered likewise. */
  lemma RegisterCbExactly(s: Sys, t: nat, fd: nat, ev: EventType, id: nat, fault: bool)
    requires IoInv(s.io) && CanRun(s, t, RegisterCb(fd, ev, id, fault))
    ensures var s' := DoStmt(s, t, RegisterCb(fd, ev, id, fault));
            && s' == s.(io := s'.io)
            && (!fault ==> fd < |Grow(s.io, fd).fds|
                           && Registers(Grow(s.io, fd).fds, s'.io.fds, fd, ev, CbTask(Client(id)), s.io.nextReg))
  {
    AddEventKeeps(s.io, fd, ev, CbTask(Client(id)), fault);
    OnlyTheTable(s, AddEvent(s.io, fd, ev, CbTask(Client(id)), fault));
    if !fault {
      AddEventRegisters(s.io, fd, ev, CbTask(Client(id)), fault);
    }
  }

  /** delEvent, when the kernel agrees, clears the event's bit and nothing else in the table; nothing is queued. */
  lemma DropExactly(s: Sys, fd: nat, ev: EventType, fault: bool)
    requires IoInv(s.io)
    ensures var s' := DoDeed(s, DropEvent(fd, ev, fault));
            if fault || fd >= |s.io.fds| || !(if ev.Read? then s.io.fds[fd].et.read else s.io.fds[fd].et.write) then
              s' == s
            else
              var e := s.io.fds[fd];
              && s'.queue == s.queue && s'.log == s.log && s'.progs == s.progs && s'.threads == s.threads
              && s'.io.fds == s.io.fds[fd := e.(et := if ev.Read? then Mask(false, e.et.write)
                                                      else Mask(e.et.read, false))]
  {
    DelEventKeeps(s.io, fd, ev, fault);
  }

  /** cancelEvent, when the kernel agrees, queues exactly what is registered for the event and empties its slot;
      otherwise it does nothing. */
  lemma CancelExactly(s: Sys, fd: nat, ev: EventType, fault: bool)
    requires IoInv(s.io)
    ensures var s' := DoDeed(s, Cancel(fd, ev, fault));
            if fault || fd >= |s.io.fds| || !(if ev.Read? then s.io.fds[fd].et.read else s.io.fds[fd].et.write) then
              s' == s
            else
              && QueuesExactly(s, s', [if ev.Read? then s.io.fds[fd].read else s.io.fds[fd].write])
              && Drained(s.io.fds, s'.io.fds, fd, ev.Read?, ev.Write?)
  {
    CancelEventKeeps(s.io, fd, ev, fault, OfReg(0));
    if CancelEvent(s.io, fd, ev, fault).Done? {
      assert FdArmed(s.io.fds[fd]);
      WakeQueues(s, CancelEvent(s.io, fd, ev, fault));
    }
  }

  /** cancelAll, when the kernel agrees, queues exactly what is registered on the fd, READ first, and empties it;
      otherwise it does nothing. */
  lemma CancelFdQueues(s: Sys, fd: nat, fault: bool)
    requires IoInv(s.io)
    ensures var s' := DoDeed(s, CancelFd(fd, fault));
            if fault || fd >= |s.io.fds| || (!s.io.fds[fd].et.read && !s.io.fds[fd].et.write) then s' == s
            else
              var e := s.io.fds[fd];
              && QueuesExactly(s, s', (if e.et.read then [e.read] else []) + (if e.et.write then [e.write] else []))
              && Drained(s.io.fds, s'.io.fds, fd, e.et.read, e.et.write)
  {
    CancelAllKeeps(s.io, fd, fault, OfReg(0));
    if CancelAll(s.io, fd, fault).Done? {
      assert FdArmed(s.io.fds[fd]);
      WakeQueues(s, CancelAll(s.io, fd, fault));
    }
  }

  // ----- stopping

  /** An idle loop ends exactly if, in this order, it saw no timer, then no pending event, and then a requested stop
      with nothing queued and nothing active. */
  lemma IdleEndsExactly(s: Sys, t: nat)
    requires t < |s.threads|
    ensures CanMove(s, t, SeeNoTimers) <==>
      s.threads[t].pc == Idle([]) && forall i :: 0 <= i < |s.timers| ==> s.timers[i].None?
    ensures CanMove(s, t, SeeNoTimers) ==> DoMove(s, t, SeeNoTimers).threads[t].pc == NoTimersSeen
    ensures CanMove(s, t, SeeNoPending) <==> s.threads[t].pc == NoTimersSeen && s.io.pending == 0
    ensures CanMove(s, t, SeeNoPending) ==> DoMove(s, t, SeeNoPending).threads[t].pc == NoPendingSeen
    ensures CanMove(s, t, EndIdle) <==>
      s.threads[t].pc == NoPendingSeen && s.stop && s.queue == [] && s.active == 0
    ensures CanMove(s, t, EndIdle) ==>
      DoMove(s, t, EndIdle) == s.(threads := s.threads[t := s.threads[t].(pc := Scanning, idleOver := true)])
    ensures CanMove(s, t, NotStopping) ==> DoMove(s, t, NotStopping).threads[t].pc == Idle([])
  {
  }
}
