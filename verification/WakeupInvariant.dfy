/** The inductive invariant of the wake-up protocol, and how the small updates change the counts. */
module WakeupInvariant {
  import opened Counting
  import opened Tasks
  import opened FdEvents
  import opened FdEventProofs
  import opened Wakeup

  // ----- fibers and threads

  /** At most one wake-up and at most one execution of each fiber; a fiber nobody executes is not
      EXEC; identities not yet allocated are nowhere. */
  ghost predicate FiberOk(s: Sys, f: nat)
  {
    && Wakeups(s, WakeOf(f)) <= 1
    && Executions(s, f) <= 1
    && (f >= |s.states| ==> Wakeups(s, WakeOf(f)) == 0 && Executions(s, f) == 0)
    && (f < |s.states| && Executions(s, f) == 0 ==> !s.states[f].Exec?)
  }

  ghost predicate PcOk(s: Sys, pc: Pc)
  {
    match pc
    case Picked(e) => e.task.FiberTask? ==> !StateOf(s.states, e.task.fiber).Exec?
    case Running(f, _, _) =>
      && f < |s.states| && f < |s.progs| && s.states[f].Exec?
      && (s.progs[f].Waiting() || Wakeups(s, WakeOf(f)) == 0)
    case Yielded(f, _, how, _) => f < |s.states| && LeftBy(how, s.states[f])
    case Counted(f, _, how) => f < |s.states| && LeftBy(how, s.states[f])
    case _ => true
  }

  /** The state in which each way of leaving leaves the fiber. */
  predicate LeftBy(how: How, st: FiberState)
  {
    match how
    case ByHold => st.Exec?
    case ByReady => st.Ready?
    case ByEnd => st.Finished()
  }

  /** A cached callback fiber is fresh and executed by nobody. */
  ghost predicate ThreadOk(s: Sys, th: Thread)
  {
    && PcOk(s, th.pc)
    && (th.cbFiber.Some? ==>
          var c := th.cbFiber.value;
          c < |s.states| && s.states[c].Init? && Executions(s, c) == 0)
  }

  ghost predicate FibersOk(s: Sys) { forall f: nat :: FiberOk(s, f) }

  ghost predicate ThreadsOk(s: Sys) { forall t :: 0 <= t < |s.threads| ==> ThreadOk(s, s.threads[t]) }

  // ----- queue entries and the active count

  function QueuedTag(k: nat): Entry -> nat { (e: Entry) => if e.tag == k then 1 else 0 }

  function HeldTagWeight(k: nat, pc: Pc): nat
  {
    match pc
    case Picked(e) => if e.tag == k then 1 else 0
    case Running(_, _, e) => if e.tag == k then 1 else 0
    case Yielded(_, _, _, e) => if e.tag == k then 1 else 0
    case _ => 0
  }

  function HeldTag(k: nat): Thread -> nat { (th: Thread) => HeldTagWeight(k, th.pc) }

  function ConsumedTag(k: nat): Event -> nat { (e: Event) => if e == Consumed(k) then 1 else 0 }

  predicate HoldsTask(pc: Pc) { pc.Picked? || pc.Running? || pc.Yielded? }

  function ActiveWeight(): Thread -> nat { (th: Thread) => if HoldsTask(th.pc) then 1 else 0 }

  /** The entry numbered `k` is in exactly one place once it has been pushed. */
  ghost predicate TagOk(s: Sys, k: nat)
  {
    Sum(s.queue, QueuedTag(k)) + Sum(s.threads, HeldTag(k)) + Sum(s.log, ConsumedTag(k))
      == if k < s.nextTag then 1 else 0
  }

  ghost predicate TasksOk(s: Sys)
  {
    (forall k: nat :: TagOk(s, k)) && s.active == Sum(s.threads, ActiveWeight())
  }

  // ----- registrations and hooked calls

  function OfReg(r: nat): Slot -> nat { (slot: Slot) => if slot.reg == r then 1 else 0 }

  function WokeReg(r: nat): Event -> nat { (e: Event) => if e == Woke(r) then 1 else 0 }

  /** A registration is live in at most one slot and triggered at most once, and never both. */
  ghost predicate RegOk(s: Sys, r: nat)
  {
    && Weight(s.io, OfReg(r)) + Sum(s.log, WokeReg(r)) <= 1
    && (r >= s.io.nextReg ==> Weight(s.io, OfReg(r)) + Sum(s.log, WokeReg(r)) == 0)
  }

  function RanFor(c: nat): Event -> nat { (e: Event) => if e == TimerRan(c) then 1 else 0 }

  function ArmedFor(c: nat): Event -> nat { (e: Event) => if e == Event.Armed(c) then 1 else 0 }

  /** Every timeout callback, whether still to run or already run, comes from a timer its call
      armed; and only such a callback sets `cancelled`. */
  ghost predicate CallOk(s: Sys, c: nat)
  {
    && Wakeups(s, TimeoutOf(c)) + Sum(s.log, RanFor(c)) <= Sum(s.log, ArmedFor(c))
    && (CallOf(s, c).cancelled ==> TimerRan(c) in s.log)
  }

  /** ETIMEDOUT is reported only after the call's own callback ran. */
  ghost predicate LogOk(log: seq<Event>)
  {
    forall j :: 0 <= j < |log| && log[j].TimedOut? ==> TimerRan(log[j].call) in log[..j]
  }

  ghost predicate HistoryOk(s: Sys)
  {
    && IoInv(s.io)
    && (forall r: nat :: RegOk(s, r))
    && (forall c: nat :: CallOk(s, c))
    && LogOk(s.log)
  }

  ghost predicate Inv(s: Sys)
  {
    |s.states| == |s.progs| && FibersOk(s) && ThreadsOk(s) && TasksOk(s) && HistoryOk(s)
  }

  // ----- how small updates change the counts

  lemma ThreadDelta(s: Sys, t: nat, th: Thread, p: Probe)
    requires t < |s.threads|
    ensures Wakeups(SetThread(s, t, th), p) + ThreadWeight(p, s.threads[t]) == Wakeups(s, p) + ThreadWeight(p, th)
  {
    SumUpdate(s.threads, t, th, OfThread(p));
  }

  lemma ExecDelta(s: Sys, t: nat, th: Thread, f: nat)
    requires t < |s.threads|
    ensures Executions(SetThread(s, t, th), f) + ExecWeight(f, s.threads[t]) == Executions(s, f) + ExecWeight(f, th)
  {
    SumUpdate(s.threads, t, th, OfExec(f));
  }

  lemma ProgDelta(s: Sys, f: nat, prog: Prog, p: Probe)
    requires f < |s.progs|
    ensures Wakeups(SetProg(s, f, prog), p) + ProgWeight(p, s.progs[f]) == Wakeups(s, p) + ProgWeight(p, prog)
  {
    SumUpdate(s.progs, f, prog, OfProg(p));
  }

  /** A step of thread `t` that also moves on the code of fiber `f`. */
  lemma ThreadAndProgDelta(s: Sys, s': Sys, t: nat, th: Thread, f: nat, prog: Prog, p: Probe)
    requires t < |s.threads| && f < |s.progs|
    requires s'.threads == s.threads[t := th] && s'.progs == s.progs[f := prog]
    requires s'.queue == s.queue && s'.io == s.io && s'.timers == s.timers
    ensures Wakeups(s', p) + ThreadWeight(p, s.threads[t]) + ProgWeight(p, s.progs[f])
         == Wakeups(s, p) + ThreadWeight(p, th) + ProgWeight(p, prog)
    ensures p.WakeOf? ==>
      (Executions(s', p.fiber) + ExecWeight(p.fiber, s.threads[t]) == Executions(s, p.fiber) + ExecWeight(p.fiber, th))
  {
    SumUpdate(s.threads, t, th, OfThread(p));
    SumUpdate(s.progs, f, prog, OfProg(p));
    if p.WakeOf? {
      SumUpdate(s.threads, t, th, OfExec(p.fiber));
    }
  }

  lemma NewFiberDelta(s: Sys, prog: Prog, p: Probe)
    ensures Wakeups(NewFiber(s, prog), p) == Wakeups(s, p) + ProgWeight(p, prog)
  {
    SumSnoc(s.progs, prog, OfProg(p));
  }

  lemma PushDelta(s: Sys, task: Task, thread: int, p: Probe)
    ensures Wakeups(Push(s, task, thread), p) == Wakeups(s, p) + TaskWeight(p, task)
  {
    SumSnoc(s.queue, Entry(task, thread, s.nextTag), OfEntry(p));
  }

  function OfTask(p: Probe): Task -> nat { (task: Task) => TaskWeight(p, task) }

  lemma PushAllDelta(s: Sys, tasks: seq<Task>, p: Probe)
    ensures Wakeups(PushAll(s, tasks), p) == Wakeups(s, p) + Sum(tasks, OfTask(p))
  {
    var es := Entries(tasks, s.nextTag);
    SumAppend(s.queue, es, OfEntry(p));
    SumPointwise(tasks, OfTask(p), es, OfEntry(p));
  }

  lemma DequeueDelta(s: Sys, i: nat, p: Probe)
    requires i < |s.queue|
    ensures Wakeups(s.(queue := Without(s.queue, i)), p) + TaskWeight(p, s.queue[i].task) == Wakeups(s, p)
  {
    SumRemove(s.queue, i, OfEntry(p));
  }

  lemma ArmDelta(s: Sys, c: Closure, p: Probe)
    ensures Wakeups(s.(timers := s.timers + [Some(c)]), p) == Wakeups(s, p) + ClosureWeight(p, c)
  {
    SumSnoc(s.timers, Some(c), OfTimer(p));
  }

  lemma DisarmDelta(s: Sys, i: nat, p: Probe)
    requires i < |s.timers|
    ensures Wakeups(s.(timers := s.timers[i := None]), p) + TimerWeight(p, s.timers[i]) == Wakeups(s, p)
  {
    SumUpdate(s.timers, i, None, OfTimer(p));
  }

  lemma CancelTimerDelta(s: Sys, timer: Option<nat>, p: Probe)
    ensures Wakeups(CancelTimer(s, timer), p) <= Wakeups(s, p)
    ensures timer.Some? && timer.value < |s.timers| ==>
      Wakeups(CancelTimer(s, timer), p) + TimerWeight(p, s.timers[timer.value]) == Wakeups(s, p)
  {
    if timer.Some? && timer.value < |s.timers| {
      DisarmDelta(s, timer.value, p);
    }
  }

  /** Scheduling what an fd operation took out of the table leaves the wake-ups as they were. */
  lemma WakeDelta(s: Sys, o: Outcome, p: Probe)
    requires Moves(s.io, o, OfSlot(p)) && forall i :: 0 <= i < |o.woken| ==> o.woken[i].Armed()
    ensures Wakeups(Absorb(s, o), p) == Wakeups(s, p)
  {
    var log := s.log + seq(|o.woken|, i requires 0 <= i < |o.woken| => Woke(o.woken[i].reg));
    PushAllDelta(s.(io := o.io, log := log), TasksOf(o.woken), p);
    SumPointwise(o.woken, OfSlot(p), TasksOf(o.woken), OfTask(p));
  }

  // ----- two places at once

  /** A fiber executing on thread `t` is executing on no other thread. */
  lemma OnlyOneExecutor(s: Sys, f: nat, t: nat, u: nat)
    requires FiberOk(s, f) && t < |s.threads| && u < |s.threads| && t != u
    requires ExecWeight(f, s.threads[t]) == 1
    ensures ExecWeight(f, s.threads[u]) == 0
  {
    SumTwo(s.threads, if t < u then t else u, if t < u then u else t, OfExec(f));
  }

  /** A fiber whose wake-up thread `t` holds is held by no other thread. */
  lemma OnlyOneHolder(s: Sys, f: nat, t: nat, u: nat)
    requires FiberOk(s, f) && t < |s.threads| && u < |s.threads| && t != u
    requires ThreadWeight(WakeOf(f), s.threads[t]) >= 1
    ensures ThreadWeight(WakeOf(f), s.threads[u]) == 0
  {
    SumTwo(s.threads, if t < u then t else u, if t < u then u else t, OfThread(WakeOf(f)));
  }

  lemma ThreadsBound(s: Sys, t: nat, p: Probe)
    requires t < |s.threads|
    ensures ThreadWeight(p, s.threads[t]) <= Wakeups(s, p)
    ensures p.WakeOf? ==> ExecWeight(p.fiber, s.threads[t]) <= Executions(s, p.fiber)
  {
    SumAt(s.threads, t, OfThread(p));
    if p.WakeOf? {
      SumAt(s.threads, t, OfExec(p.fiber));
    }
  }
}
