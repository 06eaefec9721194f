/** The fiber wake-up protocol as an interleaved step system.

    Scheduler threads, running fibers and the idle loops of several threads take steps in any
    order.  Each critical section is one step and so is each gap between two of them that another
    thread can observe: between the dequeue and the switch to the fiber, between the switch back
    and the decrement of m_activateThreadCount, between that decrement and the state the
    scheduler then gives the fiber. */
module Wakeup {
  import opened Counting
  import opened Tasks
  import opened FdEvents

  /** How a fiber gave up its thread: YieldToHold (its state stays EXEC), YieldToReady, or the end
      of its function. */
  datatype How = ByHold | ByReady | ByEnd

  /** Where a scheduler thread is in `Scheduler::run`. */
  datatype Pc =
    | Scanning
    | Picked(entry: Entry)                                      // dequeued, not yet switched to
    | Running(fiber: nat, viaCb: bool, entry: Entry)
    | Yielded(fiber: nat, viaCb: bool, how: How, entry: Entry)  // switched back, still counted active
    | Counted(fiber: nat, viaCb: bool, how: How)                // counted down, state not yet settled
    | Idle(cbs: seq<Closure>)                                   // in the idle fiber, with expired callbacks
    | NoTimersSeen                                              // in stopping(): no timer when it looked
    | NoPendingSeen                                             // ...and no pending event when it looked
    | Exited

  /** `cbFiber` is the cached fiber that runs callbacks; `idleOver` says the idle fiber ended. */
  datatype Thread = Thread(pc: Pc, cbFiber: Option<nat>, idleOver: bool)

  /** What client code has registered its fiber for: an event, a timer, or the queue itself. */
  datatype What = ForEvent(fd: nat, ev: EventType) | ForTimer | ForQueue

  /** What a fiber's code does next.  `Free` is client code; the others are the pieces of the
      hooked calls and of the callbacks they leave behind. */
  datatype Prog =
    | Free
    | Registered(what: What)                                    // has registered itself, yields next
    | WakeOther(fiber: nat)                                     // the callback of sleep's timer
    | TimeoutLock(call: nat, fd: nat, ev: EventType)            // the callback of a call's timer...
    | TimeoutCheck(call: nat, fd: nat, ev: EventType)           // ...from here on it holds the timer_info
    | TimeoutSet(call: nat, fd: nat, ev: EventType)
    | TimeoutFire(call: nat, fd: nat, ev: EventType)
    | CallArm(call: nat, fd: nat, ev: EventType)                // would block: arm the timeout
    | CallAdd(call: nat, fd: nat, ev: EventType, timer: Option<nat>)
    | CallWait(call: nat, fd: nat, ev: EventType, timer: Option<nat>)
    | CallWoken(call: nat, fd: nat, ev: EventType, timer: Option<nat>)
    | CallCheck(call: nat, fd: nat, ev: EventType)
    | CallRetry(call: nat, fd: nat, ev: EventType)
    | CallFailed(call: nat, timer: Option<nat>)
  {
    /** Between registering itself and the yield that must follow. */
    predicate Waiting() { Registered? || CallWait? }

    /** Does the code hold a shared_ptr to the timer_info of call `c`, other than the call itself? */
    predicate Holds(c: nat) { (TimeoutCheck? || TimeoutSet? || TimeoutFire?) && call == c }

    /** What the code is at once it is switched to. */
    function Resumed(): Prog
    {
      match this
      case Registered(_) => Free
      case CallWait(call, fd, ev, timer) => CallWoken(call, fd, ev, timer)
      case _ => this
    }
  }

  function ProgOf(c: Closure): Prog
  {
    match c
    case WakeFiber(g) => WakeOther(g)
    case TimeoutCall(call, fd, ev) => TimeoutLock(call, fd, ev)
    case Client(_) => Free
  }

  /** The timer_info of one hooked call, `live` while the call has not returned, and what the call waits for. */
  datatype Call = Call(live: bool, cancelled: bool, fd: nat, ev: EventType)

  datatype Event =
    | Consumed(tag: nat)      // a queue entry's task was run or dropped, and counted down
    | Woke(reg: nat)          // the fd slot of a registration was triggered
    | Armed(call: nat)        // a call put a timer with its own timer_info into the timer set
    | TimerRan(call: nat)     // a timer callback holding that timer_info set `cancelled`
    | TimedOut(call: nat)     // a call returned with ETIMEDOUT
    | Returned(call: nat)     // a call returned otherwise

  const DEAD_CALL := Call(false, false, 0, Read)

  /** `timers` lists every timer ever armed; `None` when it has expired or been cancelled. */
  datatype Sys = Sys(
    states: seq<FiberState>,
    progs: seq<Prog>,
    threads: seq<Thread>,
    queue: seq<Entry>,
    nextTag: nat,
    active: int,
    io: Io,
    timers: seq<Option<Closure>>,
    calls: seq<Call>,
    stop: bool,
    log: seq<Event>)

  function InitialSys(threads: nat): Sys
  {
    Sys([], [], seq(threads, _ => Thread(Scanning, None, false)), [], 0, 0, InitialIo(), [], [], false, [])
  }

  // ----- small updates

  function SetThread(s: Sys, t: nat, th: Thread): Sys
    requires t < |s.threads|
  {
    s.(threads := s.threads[t := th])
  }

  function SetPc(s: Sys, t: nat, pc: Pc): Sys
    requires t < |s.threads|
  {
    SetThread(s, t, s.threads[t].(pc := pc))
  }

  function SetState(s: Sys, f: nat, st: FiberState): Sys
  {
    if f < |s.states| then s.(states := s.states[f := st]) else s
  }

  function SetProg(s: Sys, f: nat, p: Prog): Sys
  {
    if f < |s.progs| then s.(progs := s.progs[f := p]) else s
  }

  function CallOf(s: Sys, c: nat): Call
  {
    if c < |s.calls| then s.calls[c] else DEAD_CALL
  }

  function SetCall(s: Sys, c: nat, call: Call): Sys
  {
    if c < |s.calls| then s.(calls := s.calls[c := call]) else s
  }

  function NewFiber(s: Sys, p: Prog): Sys
  {
    s.(states := s.states + [Init], progs := s.progs + [p])
  }

  function Push(s: Sys, task: Task, thread: int): Sys
  {
    s.(queue := s.queue + [Entry(task, thread, s.nextTag)], nextTag := s.nextTag + 1)
  }

  function PushAll(s: Sys, tasks: seq<Task>): Sys
  {
    s.(queue := s.queue + Entries(tasks, s.nextTag), nextTag := s.nextTag + |tasks|)
  }

  function Log(s: Sys, e: Event): Sys
  {
    s.(log := s.log + [e])
  }

  /** Scheduling the slots an fd operation triggered, in the order it triggered them. */
  function Wake(s: Sys, io: Io, woken: seq<Slot>): Sys
  {
    PushAll(s.(io := io, log := s.log + seq(|woken|, i requires 0 <= i < |woken| => Woke(woken[i].reg))),
            TasksOf(woken))
  }

  function TasksOf(woken: seq<Slot>): (tasks: seq<Task>)
    ensures |tasks| == |woken|
    ensures forall i :: 0 <= i < |woken| && woken[i].Armed() ==> tasks[i] == woken[i].TaskOf()
  {
    seq(|woken|, i requires 0 <= i < |woken| =>
      if woken[i].Armed() then woken[i].TaskOf() else CbTask(Client(0)))
  }

  /** The effect of an fd operation that did not abort. */
  function Absorb(s: Sys, o: Outcome): Sys
  {
    match o
    case Done(io, woken) => Wake(s, io, woken)
    case Refused(io) => s.(io := io)
    case Aborted => s
  }

  function CancelTimer(s: Sys, timer: Option<nat>): Sys
  {
    if timer.Some? && timer.value < |s.timers| then s.(timers := s.timers[timer.value := None]) else s
  }

  // ----- the steps

  /** Steps of a scheduler thread: of `run`, of its idle fiber, and of the fiber it executes when
      that gives the thread up. */
  datatype Move =
    | Scan
    | Switch
    | CountDown
    | Settle
    | Expire(timer: nat, recurring: bool)
    | Flush
    | LeaveIdle
    | SeeNoTimers
    | SeeNoPending
    | NotStopping
    | EndIdle
    | YieldToHold
    | YieldToReady
    | End(st: FiberState)

  /** Steps of a fiber's code that leave it running. */
  datatype Stmt =
    | ScheduleSelf(thread: int)
    | RegisterSelf(fd: nat, ev: EventType, fault: bool)
    | RegisterCb(fd: nat, ev: EventType, id: nat, fault: bool)
    | Sleep
    | WakeSleeper
    | BeginCall(fd: nat, ev: EventType)
    | ArmTimeout(wanted: bool)
    | AddWait(fault: bool)
    | CancelTimeout
    | CheckTimeout
    | RawAgain(blocks: bool)
    | RunTimeoutLock
    | RunTimeoutCheck
    | RunTimeoutSet
    | RunTimeoutFire(fault: bool)

  /** Steps any thread can take, inside or outside the scheduler, and reports of the kernel. */
  datatype Deed =
    | Spawn(thread: int)
    | SpawnCb(id: nat, thread: int)
    | ScheduleParked(g: nat, thread: int)
    | DropEvent(fd: nat, ev: EventType, fault: bool)
    | Cancel(fd: nat, ev: EventType, fault: bool)
    | CancelFd(fd: nat, fault: bool)
    | ClientTimer(id: nat)
    | Report(t: nat, fd: nat, report: Report, fault: bool)
    | RequestStop

  datatype Action = Loop(t: nat, move: Move) | Code(t: nat, stmt: Stmt) | Outside(deed: Deed)

  /** Is thread `t` executing a fiber whose code is at a given kind of point? */
  predicate Runs(s: Sys, t: nat)
  {
    t < |s.threads| && s.threads[t].pc.Running? && s.threads[t].pc.fiber < |s.progs|
  }

  function CodeAt(s: Sys, t: nat): Prog
    requires Runs(s, t)
  {
    s.progs[s.threads[t].pc.fiber]
  }

  predicate AtFree(s: Sys, t: nat)
  {
    Runs(s, t) && CodeAt(s, t).Free?
  }

  // Where the loop of a scheduler thread is...

  predicate AtScan(s: Sys, t: nat) { t < |s.threads| && s.threads[t].pc.Scanning? }
  predicate AtPicked(s: Sys, t: nat) { t < |s.threads| && s.threads[t].pc.Picked? }
  predicate AtYielded(s: Sys, t: nat) { t < |s.threads| && s.threads[t].pc.Yielded? }
  predicate AtCounted(s: Sys, t: nat) { t < |s.threads| && s.threads[t].pc.Counted? }
  predicate AtIdle(s: Sys, t: nat) { t < |s.threads| && s.threads[t].pc.Idle? }

  // ...and where the code of the fiber it executes is.

  predicate AtWakeOther(s: Sys, t: nat) { Runs(s, t) && CodeAt(s, t).WakeOther? }
  predicate AtArm(s: Sys, t: nat) { Runs(s, t) && CodeAt(s, t).CallArm? }
  predicate AtAdd(s: Sys, t: nat) { Runs(s, t) && CodeAt(s, t).CallAdd? }
  predicate AtDisarm(s: Sys, t: nat) { Runs(s, t) && (CodeAt(s, t).CallWoken? || CodeAt(s, t).CallFailed?) }
  predicate AtCheck(s: Sys, t: nat) { Runs(s, t) && CodeAt(s, t).CallCheck? }
  predicate AtRetry(s: Sys, t: nat) { Runs(s, t) && CodeAt(s, t).CallRetry? }
  predicate AtTimeoutLock(s: Sys, t: nat) { Runs(s, t) && CodeAt(s, t).TimeoutLock? }
  predicate AtTimeoutCheck(s: Sys, t: nat) { Runs(s, t) && CodeAt(s, t).TimeoutCheck? }
  predicate AtTimeoutSet(s: Sys, t: nat) { Runs(s, t) && CodeAt(s, t).TimeoutSet? }
  predicate AtTimeoutFire(s: Sys, t: nat) { Runs(s, t) && CodeAt(s, t).TimeoutFire? }

  // IOManager::stopping() reads three things, one after the other.

  predicate NoTimers(s: Sys) { forall i :: 0 <= i < |s.timers| ==> s.timers[i].None? }

  predicate NoPending(s: Sys) { s.io.pending == 0 }

  /** Scheduler::stopping(), under the lock of the queue. */
  predicate QueueStopping(s: Sys) { s.stop && s.queue == [] && s.active == 0 }

  /** All three at one moment. */
  predicate Stopping(s: Sys) { NoTimers(s) && NoPending(s) && QueueStopping(s) }

  /** Is some thread executing `g`?  One that has switched out of it but not yet settled it is not. */
  predicate IsRunning(s: Sys, g: nat)
  {
    exists t :: 0 <= t < |s.threads| && s.threads[t].pc.Running? && s.threads[t].pc.fiber == g
  }

  function ExecWeight(f: nat, th: Thread): nat
  {
    match th.pc
    case Running(g, _, _) => if g == f then 1 else 0
    case Yielded(g, _, _, _) => if g == f then 1 else 0
    case Counted(g, _, _) => if g == f then 1 else 0
    case _ => 0
  }

  /** When an action can be taken.  Fd operations that hit a TINY_ASSERT end the program, so they
      are not steps; FdEventProofs says exactly when that is. */
  predicate Can(s: Sys, a: Action)
  {
    match a
    case Loop(t, move) => CanMove(s, t, move)
    case Code(t, stmt) => CanRun(s, t, stmt)
    case Outside(deed) => CanHappen(s, deed)
  }

  predicate CanMove(s: Sys, t: nat, move: Move)
  {
    match move
    case Scan => AtScan(s, t)
    case Switch => AtPicked(s, t)
    case CountDown => AtYielded(s, t)
    case Settle => AtCounted(s, t)
    case Expire(i, recurring) =>
      && AtIdle(s, t)
      && i < |s.timers| && s.timers[i].Some? && (recurring ==> s.timers[i].value.Client?)
    case Flush => AtIdle(s, t)
    case LeaveIdle => t < |s.threads| && s.threads[t].pc == Idle([])
    case SeeNoTimers => t < |s.threads| && s.threads[t].pc == Idle([]) && NoTimers(s)
    case SeeNoPending => t < |s.threads| && s.threads[t].pc.NoTimersSeen? && NoPending(s)
    case NotStopping =>
      && t < |s.threads|
      && ((s.threads[t].pc.NoTimersSeen? && !NoPending(s)) || (s.threads[t].pc.NoPendingSeen? && !QueueStopping(s)))
    case EndIdle => t < |s.threads| && s.threads[t].pc.NoPendingSeen? && QueueStopping(s)
    case YieldToHold => Runs(s, t) && (CodeAt(s, t).Free? || CodeAt(s, t).Waiting())
    // Client code may call YieldToReady only while nothing is going to wake its fiber.
    case YieldToReady =>
      && Runs(s, t) && (CodeAt(s, t).Free? || CodeAt(s, t).Registered?)
      && Wakeups(s, WakeOf(s.threads[t].pc.fiber)) == 0
    case End(st) => AtFree(s, t) && st.Finished()
  }

  predicate CanRun(s: Sys, t: nat, stmt: Stmt)
  {
    match stmt
    case ScheduleSelf(_) => AtFree(s, t)
    case RegisterSelf(fd, ev, fault) =>
      AtFree(s, t) && !AddEvent(s.io, fd, ev, FiberTask(s.threads[t].pc.fiber), fault).Aborted?
    case RegisterCb(fd, ev, id, fault) =>
      AtFree(s, t) && !AddEvent(s.io, fd, ev, CbTask(Client(id)), fault).Aborted?
    case Sleep => AtFree(s, t)
    case WakeSleeper => AtWakeOther(s, t)
    case BeginCall(_, _) => AtFree(s, t)
    case ArmTimeout(_) => AtArm(s, t)
    case AddWait(fault) =>
      && AtAdd(s, t)
      && !AddEvent(s.io, CodeAt(s, t).fd, CodeAt(s, t).ev, FiberTask(s.threads[t].pc.fiber), fault).Aborted?
    case CancelTimeout => AtDisarm(s, t)
    case CheckTimeout => AtCheck(s, t)
    case RawAgain(_) => AtRetry(s, t)
    case RunTimeoutLock => AtTimeoutLock(s, t)
    case RunTimeoutCheck => AtTimeoutCheck(s, t)
    case RunTimeoutSet => AtTimeoutSet(s, t)
    case RunTimeoutFire(fault) => AtTimeoutFire(s, t)
  }

  predicate CanHappen(s: Sys, deed: Deed)
  {
    match deed
    case Spawn(_) => true
    case SpawnCb(_, _) => true
    // Client code may schedule a fiber that has switched out and that nothing else is going to wake.
    case ScheduleParked(g, _) => g < |s.states| && !IsRunning(s, g) && Wakeups(s, WakeOf(g)) == 0
    case DropEvent(_, _, _) => true
    case Cancel(_, _, _) => true
    case CancelFd(_, _) => true
    case ClientTimer(_) => true
    case Report(t, fd, r, fault) =>
      AtIdle(s, t) && fd < |s.io.fds| && !Dispatch(s.io, fd, r, fault).Aborted?
    case RequestStop => true
  }

  /** The state an action leads to. */
  function Do(s: Sys, a: Action): Sys
    requires Can(s, a)
  {
    match a
    case Loop(t, move) => DoMove(s, t, move)
    case Code(t, stmt) => DoStmt(s, t, stmt)
    case Outside(deed) => DoDeed(s, deed)
  }

  function DoMove(s: Sys, t: nat, move: Move): Sys
    requires CanMove(s, t, move)
  {
    match move
    case Scan => DoScan(s, t)
    case Switch => DoSwitch(s, t)
    case CountDown => DoCountDown(s, t)
    case Settle => DoSettle(s, t)
    case Expire(i, recurring) => DoExpire(s, t, i, recurring)
    case Flush => DoFlush(s, t)
    case LeaveIdle => SetPc(s, t, Scanning)
    case SeeNoTimers => SetPc(s, t, NoTimersSeen)
    case SeeNoPending => SetPc(s, t, NoPendingSeen)
    case NotStopping => SetPc(s, t, Idle([]))
    case EndIdle => SetThread(s, t, s.threads[t].(pc := Scanning, idleOver := true))
    case YieldToHold => DoYieldToHold(s, t)
    case YieldToReady => DoLeave(s, t, FiberState.Ready, ByReady)
    case End(st) => DoLeave(s, t, st, ByEnd)
  }

  function DoStmt(s: Sys, t: nat, stmt: Stmt): Sys
    requires CanRun(s, t, stmt)
  {
    match stmt
    case ScheduleSelf(thread) => DoScheduleSelf(s, t, thread)
    case RegisterSelf(fd, ev, fault) => DoRegisterSelf(s, t, fd, ev, fault)
    case RegisterCb(fd, ev, id, fault) => Absorb(s, AddEvent(s.io, fd, ev, CbTask(Client(id)), fault))
    case Sleep => DoSleep(s, t)
    case WakeSleeper => DoWakeSleeper(s, t)
    case BeginCall(fd, ev) => DoBeginCall(s, t, fd, ev)
    case ArmTimeout(wanted) => DoArmTimeout(s, t, wanted)
    case AddWait(fault) => DoAddWait(s, t, fault)
    case CancelTimeout => DoCancelTimeout(s, t)
    case CheckTimeout => DoCheckTimeout(s, t)
    case RawAgain(blocks) => DoRawAgain(s, t, blocks)
    case RunTimeoutLock => DoRunTimeoutLock(s, t)
    case RunTimeoutCheck => DoRunTimeoutCheck(s, t)
    case RunTimeoutSet => DoRunTimeoutSet(s, t)
    case RunTimeoutFire(fault) => DoRunTimeoutFire(s, t, fault)
  }

  function DoDeed(s: Sys, deed: Deed): Sys
    requires CanHappen(s, deed)
  {
    match deed
    case Spawn(thread) => Push(NewFiber(s, Free), FiberTask(|s.states|), thread)
    case SpawnCb(id, thread) => Push(s, CbTask(Client(id)), thread)
    case ScheduleParked(g, thread) => Push(s, FiberTask(g), thread)
    case DropEvent(fd, ev, fault) => Absorb(s, DelEvent(s.io, fd, ev, fault))
    case Cancel(fd, ev, fault) => Absorb(s, CancelEvent(s.io, fd, ev, fault))
    case CancelFd(fd, fault) => Absorb(s, CancelAll(s.io, fd, fault))
    case ClientTimer(id) => s.(timers := s.timers + [Some(Client(id))])
    case Report(t, fd, r, fault) => Absorb(s, Dispatch(s.io, fd, r, fault))
    case RequestStop => s.(stop := true)
  }

  function DoCountDown(s: Sys, t: nat): Sys
    requires AtYielded(s, t)
  {
    var pc := s.threads[t].pc;
    Log(SetPc(s.(active := s.active - 1), t, Counted(pc.fiber, pc.viaCb, pc.how)), Consumed(pc.entry.tag))
  }

  /** A due timer's callback goes to the idle loop's list; only a recurring timer stays armed. */
  function DoExpire(s: Sys, t: nat, i: nat, recurring: bool): Sys
    requires AtIdle(s, t) && i < |s.timers| && s.timers[i].Some?
  {
    SetPc(s.(timers := if recurring then s.timers else s.timers[i := None]), t,
          Idle(s.threads[t].pc.cbs + [s.timers[i].value]))
  }

  function DoFlush(s: Sys, t: nat): Sys
    requires AtIdle(s, t)
  {
    var cbs := s.threads[t].pc.cbs;
    PushAll(SetPc(s, t, Idle([])), seq(|cbs|, i requires 0 <= i < |cbs| => CbTask(cbs[i])))
  }

  /** The state stays EXEC: the scheduler thread sets HOLD later. */
  function DoYieldToHold(s: Sys, t: nat): Sys
    requires Runs(s, t)
  {
    var pc := s.threads[t].pc;
    SetPc(s, t, Yielded(pc.fiber, pc.viaCb, ByHold, pc.entry))
  }

  /** Giving up the thread with another state than EXEC, set before the context is saved. */
  function DoLeave(s: Sys, t: nat, st: FiberState, how: How): Sys
    requires Runs(s, t)
  {
    var pc := s.threads[t].pc;
    SetPc(SetState(s, pc.fiber, st), t, Yielded(pc.fiber, pc.viaCb, how, pc.entry))
  }

  function DoScheduleSelf(s: Sys, t: nat, thread: int): Sys
    requires AtFree(s, t)
  {
    Push(SetProg(s, s.threads[t].pc.fiber, Registered(ForQueue)), FiberTask(s.threads[t].pc.fiber), thread)
  }

  function DoRegisterSelf(s: Sys, t: nat, fd: nat, ev: EventType, fault: bool): Sys
    requires AtFree(s, t)
  {
    var f := s.threads[t].pc.fiber;
    var o := AddEvent(s.io, fd, ev, FiberTask(f), fault);
    if o.Done? then SetProg(Absorb(s, o), f, Registered(ForEvent(fd, ev))) else Absorb(s, o)
  }

  function DoSleep(s: Sys, t: nat): Sys
    requires AtFree(s, t)
  {
    var f := s.threads[t].pc.fiber;
    SetProg(s.(timers := s.timers + [Some(WakeFiber(f))]), f, Registered(ForTimer))
  }

  function DoWakeSleeper(s: Sys, t: nat): Sys
    requires AtWakeOther(s, t)
  {
    Push(SetProg(s, s.threads[t].pc.fiber, Free), FiberTask(CodeAt(s, t).fiber), ANY_THREAD)
  }

  function DoBeginCall(s: Sys, t: nat, fd: nat, ev: EventType): Sys
    requires AtFree(s, t)
  {
    SetProg(s.(calls := s.calls + [Call(true, false, fd, ev)]), s.threads[t].pc.fiber, CallArm(|s.calls|, fd, ev))
  }

  function DoArmTimeout(s: Sys, t: nat, wanted: bool): Sys
    requires AtArm(s, t)
  {
    var CallArm(call, fd, ev) := CodeAt(s, t);
    if wanted then
      Log(SetProg(s.(timers := s.timers + [Some(TimeoutCall(call, fd, ev))]), s.threads[t].pc.fiber,
                  CallAdd(call, fd, ev, Some(|s.timers|))), Event.Armed(call))
    else
      SetProg(s, s.threads[t].pc.fiber, CallAdd(call, fd, ev, None))
  }

  function DoAddWait(s: Sys, t: nat, fault: bool): Sys
    requires AtAdd(s, t)
  {
    var f := s.threads[t].pc.fiber;
    var CallAdd(call, fd, ev, timer) := CodeAt(s, t);
    var o := AddEvent(s.io, fd, ev, FiberTask(f), fault);
    SetProg(Absorb(s, o), f, if o.Done? then CallWait(call, fd, ev, timer) else CallFailed(call, timer))
  }

  function DoRawAgain(s: Sys, t: nat, blocks: bool): Sys
    requires AtRetry(s, t)
  {
    var CallRetry(call, fd, ev) := CodeAt(s, t);
    if blocks then SetProg(s, s.threads[t].pc.fiber, CallArm(call, fd, ev)) else Return(s, t, call, Returned(call))
  }

  /** The timer_info of a call exists while the call has not returned or a callback holds it. */
  predicate Alive(s: Sys, c: nat)
  {
    CallOf(s, c).live || exists f :: 0 <= f < |s.progs| && s.progs[f].Holds(c)
  }

  /** The timer callback: OnTimer locks the weak reference... */
  function DoRunTimeoutLock(s: Sys, t: nat): Sys
    requires AtTimeoutLock(s, t)
  {
    var TimeoutLock(call, fd, ev) := CodeAt(s, t);
    SetProg(s, s.threads[t].pc.fiber, if Alive(s, call) then TimeoutCheck(call, fd, ev) else Free)
  }

  /** ...the callback looks at `cancelled`... */
  function DoRunTimeoutCheck(s: Sys, t: nat): Sys
    requires AtTimeoutCheck(s, t)
  {
    var TimeoutCheck(call, fd, ev) := CodeAt(s, t);
    SetProg(s, s.threads[t].pc.fiber, if CallOf(s, call).cancelled then Free else TimeoutSet(call, fd, ev))
  }

  /** ...set it... */
  function DoRunTimeoutSet(s: Sys, t: nat): Sys
    requires AtTimeoutSet(s, t)
  {
    var TimeoutSet(call, fd, ev) := CodeAt(s, t);
    Log(SetProg(SetCall(s, call, CallOf(s, call).(cancelled := true)), s.threads[t].pc.fiber,
                TimeoutFire(call, fd, ev)), TimerRan(call))
  }

  /** ...and cancel the event. */
  function DoRunTimeoutFire(s: Sys, t: nat, fault: bool): Sys
    requires AtTimeoutFire(s, t)
  {
    var TimeoutFire(_, fd, ev) := CodeAt(s, t);
    SetProg(Absorb(s, CancelEvent(s.io, fd, ev, fault)), s.threads[t].pc.fiber, Free)
  }

  /** The scan of the queue; with nothing to take, on to the idle fiber or, once that has ended,
      out of the loop. */
  function DoScan(s: Sys, t: nat): Sys
    requires AtScan(s, t)
  {
    var i := FirstEligible(s.queue, t, s.states);
    if i < |s.queue| then
      SetPc(s.(queue := Without(s.queue, i), active := s.active + 1), t, Picked(s.queue[i]))
    else
      SetPc(s, t, if s.threads[t].idleOver then Exited else Idle([]))
  }

  /** From the dequeued entry to the running fiber: its own fiber unless that has finished (then
      the entry is dropped), or for a callback the cached fiber or a new one. */
  function DoSwitch(s: Sys, t: nat): Sys
    requires AtPicked(s, t)
  {
    var e := s.threads[t].pc.entry;
    match e.task
    case FiberTask(f) =>
      if StateOf(s.states, f).Finished() then
        Log(SetPc(s.(active := s.active - 1), t, Scanning), Consumed(e.tag))
      else
        SwapIn(s, t, f, false, e)
    case CbTask(c) =>
      match s.threads[t].cbFiber
      case Some(f) => SwapIn(SetProg(SetThread(s, t, s.threads[t].(cbFiber := None)), f, ProgOf(c)), t, f, true, e)
      case None => SwapIn(NewFiber(s, ProgOf(c)), t, |s.states|, true, e)
  }

  function SwapIn(s: Sys, t: nat, f: nat, viaCb: bool, e: Entry): Sys
    requires t < |s.threads|
  {
    var s1 := SetPc(SetState(s, f, Exec), t, Running(f, viaCb, e));
    if f < |s.progs| then SetProg(s1, f, s.progs[f].Resumed()) else s1
  }

  /** What the scheduler does with the fiber after the decrement, by the state it reads. */
  function DoSettle(s: Sys, t: nat): Sys
    requires AtCounted(s, t)
  {
    var Counted(f, viaCb, _) := s.threads[t].pc;
    var s1 := SetPc(s, t, Scanning);
    var st := StateOf(s.states, f);
    if st.Ready? then Push(s1, FiberTask(f), ANY_THREAD)
    else if !st.Finished() then SetState(s1, f, FiberState.Hold)
    else if viaCb then SetThread(SetState(s1, f, Init), t, Thread(Scanning, Some(f), s.threads[t].idleOver))
    else s1
  }

  /** timer->cancle() after the wait or after a failed addEvent. */
  function DoCancelTimeout(s: Sys, t: nat): Sys
    requires AtDisarm(s, t)
  {
    match CodeAt(s, t)
    case CallWoken(call, fd, ev, timer) =>
      SetProg(CancelTimer(s, timer), s.threads[t].pc.fiber, CallCheck(call, fd, ev))
    case CallFailed(call, timer) => Return(CancelTimer(s, timer), t, call, Returned(call))
  }

  function DoCheckTimeout(s: Sys, t: nat): Sys
    requires AtCheck(s, t)
  {
    var CallCheck(call, fd, ev) := CodeAt(s, t);
    if CallOf(s, call).cancelled then Return(s, t, call, TimedOut(call))
    else SetProg(s, s.threads[t].pc.fiber, CallRetry(call, fd, ev))
  }

  /** The hooked call returns to client code and its timer_info dies. */
  function Return(s: Sys, t: nat, call: nat, e: Event): Sys
    requires Runs(s, t)
  {
    Log(SetProg(SetCall(s, call, CallOf(s, call).(live := false)), s.threads[t].pc.fiber, Free), e)
  }

  // ----- runs

  predicate ValidRun(s: Sys, run: seq<Action>)
    decreases |run|
  {
    run == [] || (Can(s, run[0]) && ValidRun(Do(s, run[0]), run[1..]))
  }

  function After(s: Sys, run: seq<Action>): Sys
    requires ValidRun(s, run)
    decreases |run|
  {
    if run == [] then s else After(Do(s, run[0]), run[1..])
  }

  // ----- counting wake-ups

  /** What is being counted: the wake-ups of a fiber, or the timeout callbacks of a call. */
  datatype Probe = WakeOf(fiber: nat) | TimeoutOf(call: nat)

  function ClosureWeight(p: Probe, c: Closure): nat
  {
    match c
    case WakeFiber(f) => if p == WakeOf(f) then 1 else 0
    case TimeoutCall(call, _, _) => if p == TimeoutOf(call) then 1 else 0
    case Client(_) => 0
  }

  function TaskWeight(p: Probe, task: Task): nat
  {
    match task
    case FiberTask(f) => if p == WakeOf(f) then 1 else 0
    case CbTask(c) => ClosureWeight(p, c)
  }

  function SlotWeight(p: Probe, slot: Slot): nat
  {
    if slot.cb.Some? then ClosureWeight(p, slot.cb.value)
    else if slot.fiber.Some? && p == WakeOf(slot.fiber.value) then 1 else 0
  }

  function TimerWeight(p: Probe, timer: Option<Closure>): nat
  {
    if timer.Some? then ClosureWeight(p, timer.value) else 0
  }

  function ProgWeight(p: Probe, prog: Prog): nat
  {
    match prog
    case WakeOther(f) => if p == WakeOf(f) then 1 else 0
    case TimeoutLock(call, _, _) => if p == TimeoutOf(call) then 1 else 0
    case TimeoutCheck(call, _, _) => if p == TimeoutOf(call) then 1 else 0
    case TimeoutSet(call, _, _) => if p == TimeoutOf(call) then 1 else 0
    case _ => 0
  }

  /** A thread about to re-queue or to cache a fiber holds that fiber's wake-up. */
  function PcWeight(p: Probe, pc: Pc): nat
  {
    match pc
    case Picked(e) => TaskWeight(p, e.task)
    case Yielded(f, viaCb, how, _) => if p == WakeOf(f) && Keeps(viaCb, how) then 1 else 0
    case Counted(f, viaCb, how) => if p == WakeOf(f) && Keeps(viaCb, how) then 1 else 0
    case Idle(cbs) => Sum(cbs, OfClosure(p))
    case _ => 0
  }

  predicate Keeps(viaCb: bool, how: How) { how.ByReady? || (viaCb && how.ByEnd?) }

  function ThreadWeight(p: Probe, th: Thread): nat
  {
    PcWeight(p, th.pc) + if th.cbFiber.Some? && p == WakeOf(th.cbFiber.value) then 1 else 0
  }

  function OfClosure(p: Probe): Closure -> nat { (c: Closure) => ClosureWeight(p, c) }
  function OfEntry(p: Probe): Entry -> nat { (e: Entry) => TaskWeight(p, e.task) }
  function OfSlot(p: Probe): Slot -> nat { (slot: Slot) => SlotWeight(p, slot) }
  function OfTimer(p: Probe): Option<Closure> -> nat { (timer: Option<Closure>) => TimerWeight(p, timer) }
  function OfProg(p: Probe): Prog -> nat { (prog: Prog) => ProgWeight(p, prog) }
  function OfThread(p: Probe): Thread -> nat { (th: Thread) => ThreadWeight(p, th) }
  function OfExec(f: nat): Thread -> nat { (th: Thread) => ExecWeight(f, th) }

  /** Everything that will, or could, lead to a switch to the fiber (or a run of the timeout
      callback): queue entries, registered fd slots, armed timers, expired callbacks, callbacks
      being run, and the entry or fiber a scheduler thread holds. */
  function Wakeups(s: Sys, p: Probe): nat
  {
    Sum(s.queue, OfEntry(p)) + Weight(s.io, OfSlot(p)) + Sum(s.timers, OfTimer(p))
    + Sum(s.progs, OfProg(p)) + Sum(s.threads, OfThread(p))
  }

  /** On how many threads the fiber is executing, or switched out but not yet settled. */
  function Executions(s: Sys, f: nat): nat
  {
    Sum(s.threads, OfExec(f))
  }
}
