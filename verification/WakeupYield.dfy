/** YieldToReady: the invariant survives it if and only if nothing else is going to wake the fiber;
    otherwise two threads can end up about to run it.  The same condition decides whether a fiber that has
    registered itself may go on instead of yielding. */
module WakeupYield {
  import opened Counting
  import opened Tasks
  import opened FdEvents
  import opened FdEventProofs
  import opened Wakeup
  import opened WakeupInvariant
  import opened WakeupFibers
  import opened WakeupTasks
  import opened WakeupHistory
  import opened WakeupTheorems
  import opened WakeupSlots
  import opened WakeupScenarios

  function Yield(s: Sys, t: nat): Sys
    requires Runs(s, t)
  {
    DoLeave(s, t, FiberState.Ready, ByReady)
  }

  // ----- the exact condition

  lemma YieldKeepsTasks(s: Sys, t: nat)
    requires TasksOk(s) && Runs(s, t)
    ensures TasksOk(Yield(s, t))
  {
    SmallAppends(s, Yield(s, t));
    AppendKeeps(s, Yield(s, t), t);
  }

  lemma YieldKeepsHistory(s: Sys, t: nat)
    requires HistoryOk(s) && Runs(s, t)
    ensures HistoryOk(Yield(s, t))
  {
    QuietKeepsRegs(s, Yield(s, t));
    forall c: nat ensures Wakeups(Yield(s, t), TimeoutOf(c)) <= Wakeups(s, TimeoutOf(c)) {
      ThreadMoveTimeouts(s, Yield(s, t), t, c);
    }
    QuietKeepsCalls(s, Yield(s, t));
  }

  /** YieldToReady keeps the invariant if and only if the running fiber has no wake-up. */
  lemma YieldToReadyExactly(s: Sys, t: nat)
    requires Inv(s) && Runs(s, t)
    ensures Inv(Yield(s, t)) <==> Wakeups(s, WakeOf(s.threads[t].pc.fiber)) == 0
  {
    var f := s.threads[t].pc.fiber;
    if Wakeups(s, WakeOf(f)) == 0 {
      LeaveKeeps(s, t, FiberState.Ready, ByReady);
      YieldKeepsTasks(s, t);
      YieldKeepsHistory(s, t);
    } else {
      ThreadDelta(s, t, Yield(s, t).threads[t], WakeOf(f));
      assert !FiberOk(Yield(s, t), f);
    }
  }

  // ----- what happens otherwise

  /** The assertion in swapIn fails on thread `v`: what it is about to switch to is EXEC. */
  predicate SwapInFails(s: Sys, v: nat, f: nat)
  {
    AtPicked(s, v) && s.threads[v].pc.entry.task == FiberTask(f) && f < |s.states| && s.states[f].Exec?
  }

  /** Thread `t` would dequeue an entry for fiber `f`. */
  predicate NextIs(q: seq<Entry>, t: nat, states: seq<FiberState>, f: nat)
  {
    var i := FirstEligible(q, t, states);
    i < |q| && q[i].task == FiberTask(f)
  }

  lemma ScanTakes(s: Sys, t: nat, i: nat)
    requires AtScan(s, t) && i < |s.queue| && i == FirstEligible(s.queue, t, s.states)
    ensures Leads(s, SetPc(s.(queue := Without(s.queue, i), active := s.active + 1), t, Picked(s.queue[i])))
  {
    OneStep(s, Loop(t, Scan));
  }

  lemma BothTake(s: Sys, u: nat, v: nat, f: nat) returns (s': Sys)
    requires u != v && AtScan(s, u) && AtScan(s, v)
    requires NextIs(s.queue, u, s.states, f)
    requires NextIs(Without(s.queue, FirstEligible(s.queue, u, s.states)), v, s.states, f)
    ensures Leads(s, s') && s'.states == s.states && AtPicked(s', u) && AtPicked(s', v)
    ensures s'.threads[u].pc.entry.task == s'.threads[v].pc.entry.task == FiberTask(f)
  {
    var i := FirstEligible(s.queue, u, s.states);
    var rest := Without(s.queue, i);
    var j := FirstEligible(rest, v, s.states);
    ScanTakes(s, u, i);
    var s1 := SetPc(s.(queue := rest, active := s.active + 1), u, Picked(s.queue[i]));
    ScanTakes(s1, v, j);
    s' := SetPc(s1.(queue := Without(rest, j), active := s1.active + 1), v, Picked(rest[j]));
    LeadsOn(s, s1, s');
  }

  /** Two queue entries for one fiber that is not EXEC: two threads dequeue it, one runs it, and the
      other is about to switch to a fiber that is EXEC. */
  lemma TwoEntriesBreakSwapIn(s: Sys, u: nat, v: nat, f: nat) returns (s': Sys)
    requires u != v && AtScan(s, u) && AtScan(s, v) && f < |s.states| && !s.states[f].Finished()
    requires NextIs(s.queue, u, s.states, f)
    requires NextIs(Without(s.queue, FirstEligible(s.queue, u, s.states)), v, s.states, f)
    ensures Leads(s, s') && SwapInFails(s', v, f)
  {
    var s1 := BothTake(s, u, v, f);
    Then(s, s1, Loop(u, Switch));
    s' := Do(s1, Loop(u, Switch));
  }

  /** Thread `t` can take nothing that is queued. */
  predicate NothingFor(s: Sys, t: nat) { FirstEligible(s.queue, t, s.states) == |s.queue| }

  /** A fiber with a wake-up outside the queue has no queue entry. */
  lemma NotQueued(s: Sys, f: nat)
    requires FiberOk(s, f) && (Weight(s.io, OfSlot(WakeOf(f))) >= 1 || Sum(s.timers, OfTimer(WakeOf(f))) >= 1)
    ensures forall k :: 0 <= k < |s.queue| ==> s.queue[k].task != FiberTask(f)
  {
    forall k | 0 <= k < |s.queue| ensures s.queue[k].task != FiberTask(f) {
      SumAt(s.queue, k, OfEntry(WakeOf(f)));
    }
  }

  predicate Blocked(q: seq<Entry>, t: nat, states: seq<FiberState>)
  {
    forall k :: 0 <= k < |q| ==> !Eligible(q[k], t, states)
  }

  /** If nothing could be taken, and only fibers that are not queued have changed, nothing can be taken. */
  lemma StaysBlocked(q: seq<Entry>, t: nat, was: seq<FiberState>, states: seq<FiberState>, f: nat)
    requires FirstEligible(q, t, was) == |q| && |was| <= |states|
    requires forall g :: 0 <= g < |was| && g != f ==> states[g] == was[g]
    requires forall k :: 0 <= k < |q| ==> q[k].task != FiberTask(f)
    ensures Blocked(q, t, states)
  {
    forall k | 0 <= k < |q| ensures !Eligible(q[k], t, states) {
      assert !Eligible(q[k], t, was);
    }
  }

  /** A new entry is what a thread takes first, if it can take no old one. */
  lemma NewEntriesNext(q: seq<Entry>, es: seq<Entry>, t: nat, states: seq<FiberState>)
    requires Blocked(q, t, states) && es != [] && Eligible(es[0], t, states)
    ensures FirstEligible(q + es, t, states) == |q|
  {
    forall k | 0 <= k < |q| ensures !Eligible((q + es)[k], t, states) {
      assert (q + es)[k] == q[k];
    }
    FirstEligibleUnique(q + es, t, states, |q|);
  }

  /** The thread that ran the fiber counts down and re-queues it. */
  lemma Requeue(y: Sys, t: nat, f: nat) returns (y': Sys)
    requires AtYielded(y, t) && y.threads[t].pc.fiber == f && f < |y.states| && y.states[f].Ready?
    ensures Leads(y, y') && y'.states == y.states && y'.progs == y.progs && y'.io == y.io
    ensures y'.queue == y.queue + [Entry(FiberTask(f), ANY_THREAD, y.nextTag)]
    ensures |y'.threads| == |y.threads| && forall u :: 0 <= u < |y.threads| && u != t ==> y'.threads[u] == y.threads[u]
  {
    OneStep(y, Loop(t, CountDown));
    var y1 := Do(y, Loop(t, CountDown));
    Then(y, y1, Loop(t, Settle));
    y' := Do(y1, Loop(t, Settle));
  }

  lemma Fire(y: Sys, fd: nat, ev: EventType, f: nat) returns (y': Sys)
    requires IoInv(y.io) && fd < |y.io.fds| && y.io.fds[fd].et.Has(ev) && y.io.fds[fd].Get(ev).fiber == Some(f)
    ensures Leads(y, y') && y'.states == y.states && y'.progs == y.progs && y'.threads == y.threads
    ensures y'.queue == y.queue + [Entry(FiberTask(f), ANY_THREAD, y.nextTag)]
  {
    FireQueues(y, fd, ev, f);
    OneStep(y, Outside(Cancel(fd, ev, false)));
    y' := Do(y, Outside(Cancel(fd, ev, false)));
  }

  lemma FireQueues(y: Sys, fd: nat, ev: EventType, f: nat)
    requires IoInv(y.io) && fd < |y.io.fds| && y.io.fds[fd].et.Has(ev) && y.io.fds[fd].Get(ev).fiber == Some(f)
    ensures var y' := Absorb(y, CancelEvent(y.io, fd, ev, false));
            && y'.states == y.states && y'.progs == y.progs && y'.threads == y.threads
            && y'.queue == y.queue + [Entry(FiberTask(f), ANY_THREAD, y.nextTag)]
  {
    assert FdArmed(y.io.fds[fd]);
    CancelEventKeeps(y.io, fd, ev, false, OfReg(0));
    var o := CancelEvent(y.io, fd, ev, false);
    assert Entries(TasksOf(o.woken), y.nextTag) == [Entry(FiberTask(f), ANY_THREAD, y.nextTag)];
  }

  lemma FireAndRequeue(y: Sys, t: nat, fd: nat, ev: EventType, f: nat) returns (y': Sys, es: seq<Entry>)
    requires IoInv(y.io) && fd < |y.io.fds| && y.io.fds[fd].et.Has(ev) && y.io.fds[fd].Get(ev).fiber == Some(f)
    requires AtYielded(y, t) && y.threads[t].pc.fiber == f && f < |y.states| && y.states[f].Ready?
    ensures Leads(y, y') && y'.states == y.states && y'.progs == y.progs && y'.queue == y.queue + es && |es| == 2
    ensures forall i :: 0 <= i < 2 ==> es[i].task == FiberTask(f) && es[i].thread == ANY_THREAD
    ensures |y'.threads| == |y.threads| && forall u :: 0 <= u < |y.threads| && u != t ==> y'.threads[u] == y.threads[u]
  {
    var y1 := Fire(y, fd, ev, f);
    y' := Requeue(y1, t, f);
    LeadsOn(y, y1, y');
    es := [Entry(FiberTask(f), ANY_THREAD, y.nextTag), Entry(FiberTask(f), ANY_THREAD, y1.nextTag)];
  }

  /** Two entries at the end of a queue in which nothing else can be taken. */
  lemma TwoNewEntries(s: Sys, q: seq<Entry>, es: seq<Entry>, u: nat, v: nat, f: nat)
    requires s.queue == q + es && |es| == 2 && f < |s.states| && !s.states[f].Exec?
    requires Blocked(q, u, s.states) && Blocked(q, v, s.states)
    requires forall i :: 0 <= i < 2 ==> es[i].task == FiberTask(f) && es[i].thread == ANY_THREAD
    ensures NextIs(s.queue, u, s.states, f)
    ensures NextIs(Without(s.queue, FirstEligible(s.queue, u, s.states)), v, s.states, f)
  {
    NewEntriesNext(q, es, u, s.states);
    assert Without(q + es, |q|) == q + es[1..];
    NewEntriesNext(q, es[1..], v, s.states);
  }

  /** The two entries of a fiber whose wake-up was outside the queue. */
  lemma NewlyQueued(s: Sys, y: Sys, es: seq<Entry>, u: nat, v: nat, f: nat)
    requires FiberOk(s, f) && (Weight(s.io, OfSlot(WakeOf(f))) >= 1 || Sum(s.timers, OfTimer(WakeOf(f))) >= 1)
    requires NothingFor(s, u) && NothingFor(s, v) && y.queue == s.queue + es && |es| == 2
    requires f < |s.states| <= |y.states| && y.states[f].Ready?
    requires forall g :: 0 <= g < |s.states| && g != f ==> y.states[g] == s.states[g]
    requires forall i :: 0 <= i < 2 ==> es[i].task == FiberTask(f) && es[i].thread == ANY_THREAD
    ensures NextIs(y.queue, u, y.states, f)
    ensures NextIs(Without(y.queue, FirstEligible(y.queue, u, y.states)), v, y.states, f)
  {
    NotQueued(s, f);
    StaysBlocked(s.queue, u, s.states, y.states, f);
    StaysBlocked(s.queue, v, s.states, y.states, f);
    TwoNewEntries(y, s.queue, es, u, v, f);
  }

  /** In every state that satisfies the invariant: a fiber registered for an event that calls
      YieldToReady, with two other threads scanning and nothing else for them to take, can make the
      assertion in swapIn fail. */
  lemma YieldToReadyWhileRegisteredBreaks(s: Sys, t: nat, u: nat, v: nat, fd: nat, ev: EventType) returns (s': Sys)
    requires Inv(s) && Runs(s, t) && u != v && AtScan(s, u) && AtScan(s, v) && NothingFor(s, u) && NothingFor(s, v)
    requires fd < |s.io.fds| && s.io.fds[fd].et.Has(ev) && s.io.fds[fd].Get(ev).fiber == Some(s.threads[t].pc.fiber)
    ensures Leads(Yield(s, t), s') && SwapInFails(s', v, s.threads[t].pc.fiber)
  {
    var f, y := s.threads[t].pc.fiber, Yield(s, t);
    assert ThreadOk(s, s.threads[t]) && FiberOk(s, f);
    SlotWeighs(s.io, fd, ev, f);
    var y1, es := FireAndRequeue(y, t, fd, ev, f);
    NewlyQueued(s, y1, es, u, v, f);
    s' := TwoEntriesBreakSwapIn(y1, u, v, f);
    LeadsOn(y, y1, s');
  }

  /** The same for a fiber that has queued itself, unpinned. */
  lemma YieldToReadyWhileQueuedBreaks(s: Sys, t: nat, u: nat, v: nat, k: nat) returns (s': Sys)
    requires Inv(s) && Runs(s, t) && u != v && AtScan(s, u) && AtScan(s, v) && NothingFor(s, u) && NothingFor(s, v)
    requires k < |s.queue| && s.queue[k].task == FiberTask(s.threads[t].pc.fiber) && s.queue[k].thread == ANY_THREAD
    ensures Leads(Yield(s, t), s') && SwapInFails(s', v, s.threads[t].pc.fiber)
  {
    var f, y := s.threads[t].pc.fiber, Yield(s, t);
    assert ThreadOk(s, s.threads[t]) && FiberOk(s, f);
    forall i | 0 <= i < |s.queue| && i != k ensures s.queue[i].task != FiberTask(f) {
      QueuedOnce(s, f, i, k);
    }
    var y1 := Requeue(y, t, f);
    OldAndNewEntry(y1, s.queue, k, y1.queue[|s.queue|], u, v, s.states, f);
    s' := TwoEntriesBreakSwapIn(y1, u, v, f);
    LeadsOn(y, y1, s');
  }

  lemma QueuedOnce(s: Sys, f: nat, i: nat, k: nat)
    requires FiberOk(s, f) && i < |s.queue| && k < |s.queue| && i != k && s.queue[k].task == FiberTask(f)
    ensures s.queue[i].task != FiberTask(f)
  {
    SumTwo(s.queue, if i < k then i else k, if i < k then k else i, OfEntry(WakeOf(f)));
  }

  /** Only the entry at `k` can be taken once its fiber is no longer EXEC. */
  lemma OthersBlocked(q: seq<Entry>, k: nat, t: nat, was: seq<FiberState>, states: seq<FiberState>, f: nat)
    requires FirstEligible(q, t, was) == |q| && k < |q| && f < |was| && states == was[f := FiberState.Ready]
    requires forall i :: 0 <= i < |q| && i != k ==> q[i].task != FiberTask(f)
    ensures Blocked(q[..k], t, states) && Blocked(q[k + 1..], t, states)
  {
    forall i | 0 <= i < |q| && i != k ensures !Eligible(q[i], t, states) {
      assert !Eligible(q[i], t, was);
    }
  }

  lemma OldIsTaken(q: seq<Entry>, k: nat, e: Entry, t: nat, states: seq<FiberState>)
    requires k < |q| && Blocked(q[..k], t, states) && Eligible(q[k], t, states)
    ensures FirstEligible(q + [e], t, states) == k
  {
    assert q + [e] == q[..k] + (q[k..] + [e]);
    NewEntriesNext(q[..k], q[k..] + [e], t, states);
  }

  lemma NewIsTaken(q: seq<Entry>, k: nat, e: Entry, t: nat, states: seq<FiberState>)
    requires k < |q| && Blocked(q[..k], t, states) && Blocked(q[k + 1..], t, states) && Eligible(e, t, states)
    ensures var rest := Without(q + [e], k);
            |rest| == |q| && FirstEligible(rest, t, states) == |q| - 1 && rest[|q| - 1] == e
  {
    assert Without(q + [e], k) == q[..k] + q[k + 1..] + [e];
    NewEntriesNext(q[..k] + q[k + 1..], [e], t, states);
  }

  lemma OldAndNewEntry(s: Sys, q: seq<Entry>, k: nat, e: Entry, u: nat, v: nat, was: seq<FiberState>, f: nat)
    requires s.queue == q + [e] && k < |q| && f < |was| && s.states == was[f := FiberState.Ready]
    requires FirstEligible(q, u, was) == FirstEligible(q, v, was) == |q|
    requires forall i :: 0 <= i < |q| && i != k ==> q[i].task != FiberTask(f)
    requires q[k].task == e.task == FiberTask(f) && q[k].thread == e.thread == ANY_THREAD
    ensures NextIs(s.queue, u, s.states, f)
    ensures NextIs(Without(s.queue, FirstEligible(s.queue, u, s.states)), v, s.states, f)
  {
    OthersBlocked(q, k, u, was, s.states, f);
    OthersBlocked(q, k, v, was, s.states, f);
    OldIsTaken(q, k, e, u, s.states);
    NewIsTaken(q, k, e, v, s.states);
  }

  /** Such a state is reachable: a fiber registers itself for reading on fd 0. */
  lemma RegisteredStateIsReachable() returns (s: Sys)
    ensures Reachable(s) && Runs(s, 0) && AtScan(s, 1) && AtScan(s, 2) && NothingFor(s, 1) && NothingFor(s, 2)
    ensures 0 < |s.io.fds| && s.io.fds[0].et.Has(Read) && s.io.fds[0].Get(Read).fiber == Some(s.threads[0].pc.fiber)
  {
    var r := OneFiberRunning(3, false);
    ReachableStep(r, Code(0, RegisterSelf(0, Read, false)));
    s := Do(r, Code(0, RegisterSelf(0, Read, false)));
  }

  // ----- a sleeper's timer

  /** With nothing to take, an idle thread takes the expired timer's callback. */
  lemma ExpireSleeper(y: Sys, u: nat, i: nat, f: nat) returns (y': Sys)
    requires AtScan(y, u) && !y.threads[u].idleOver && NothingFor(y, u)
    requires i < |y.timers| && y.timers[i] == Some(WakeFiber(f))
    ensures Leads(y, y') && y' == SetPc(y, u, Idle([WakeFiber(f)])).(timers := y.timers[i := None])
  {
    OneStep(y, Loop(u, Scan));
    var y1 := Do(y, Loop(u, Scan));
    Then(y, y1, Loop(u, Expire(i, false)));
    y' := Do(y1, Loop(u, Expire(i, false)));
    assert [] + [WakeFiber(f)] == [WakeFiber(f)];
    assert y'.threads == SetPc(y, u, Idle([WakeFiber(f)])).threads;
  }

  /** It queues it... */
  lemma QueueSleeper(y: Sys, u: nat, f: nat) returns (y': Sys)
    requires AtIdle(y, u) && y.threads[u].pc == Idle([WakeFiber(f)])
    ensures Leads(y, y')
    ensures y' == SetPc(y, u, Scanning).(nextTag := y.nextTag + 1,
                    queue := y.queue + [Entry(CbTask(WakeFiber(f)), ANY_THREAD, y.nextTag)])
  {
    OneStep(y, Loop(u, Flush));
    var y1 := Do(y, Loop(u, Flush));
    Then(y, y1, Loop(u, LeaveIdle));
    y' := Do(y1, Loop(u, LeaveIdle));
    assert y'.threads == SetPc(y, u, Scanning).threads;
  }

  /** ...runs it on a new fiber... */
  lemma RunSleeper(y: Sys, u: nat, q: seq<Entry>, e: Entry, f: nat) returns (y': Sys)
    requires AtScan(y, u) && y.threads[u].cbFiber.None? && |y.states| == |y.progs|
    requires y.queue == q + [e] && Blocked(q, u, y.states)
    requires e.task == CbTask(WakeFiber(f)) && e.thread == ANY_THREAD
    ensures Leads(y, y')
    ensures y' == SetPc(y, u, Running(|y.states|, true, e)).(queue := q, active := y.active + 1,
                    states := y.states + [Exec], progs := y.progs + [WakeOther(f)])
  {
    NewEntriesNext(q, [e], u, y.states);
    ScanTakes(y, u, |q|);
    assert Without(q + [e], |q|) == q;
    var y1 := SetPc(y.(queue := q, active := y.active + 1), u, Picked(e));
    Then(y, y1, Loop(u, Switch));
    y' := Do(y1, Loop(u, Switch));
    assert y'.threads == SetPc(y, u, Running(|y.states|, true, e)).threads;
  }

  /** ...and the callback queues the sleeper. */
  lemma SleeperQueued(y: Sys, u: nat, n: nat, f: nat) returns (y': Sys)
    requires Runs(y, u) && y.threads[u].pc.fiber == n && y.threads[u].pc.viaCb
    requires n < |y.states| && CodeAt(y, u) == WakeOther(f)
    ensures Leads(y, y') && y'.queue == y.queue + [Entry(FiberTask(f), ANY_THREAD, y.nextTag)]
    ensures y'.states == y.states[n := FiberState.Term] && AtYielded(y', u)
    ensures y'.threads[u].pc.fiber == n && y'.threads[u].pc.viaCb
    ensures |y'.threads| == |y.threads| && forall v :: 0 <= v < |y.threads| && v != u ==> y'.threads[v] == y.threads[v]
  {
    OneStep(y, Code(u, WakeSleeper));
    var y1 := Do(y, Code(u, WakeSleeper));
    Then(y, y1, Loop(u, End(FiberState.Term)));
    y' := Do(y1, Loop(u, End(FiberState.Term)));
  }

  lemma CacheFiber(y: Sys, u: nat, n: nat) returns (y': Sys)
    requires AtYielded(y, u) && y.threads[u].pc.fiber == n && y.threads[u].pc.viaCb
    requires n < |y.states| && y.states[n].Term?
    ensures Leads(y, y') && y'.queue == y.queue && y'.states == y.states[n := Init] && AtScan(y', u)
    ensures |y'.threads| == |y.threads| && forall v :: 0 <= v < |y.threads| && v != u ==> y'.threads[v] == y.threads[v]
  {
    OneStep(y, Loop(u, CountDown));
    var y1 := Do(y, Loop(u, CountDown));
    Then(y, y1, Loop(u, Settle));
    y' := Do(y1, Loop(u, Settle));
  }

  /** The callback of a sleep timer, from the idle loop to the queue. */
  lemma TakeAndRunSleeper(y: Sys, u: nat, i: nat, f: nat) returns (y': Sys)
    requires AtScan(y, u) && !y.threads[u].idleOver && y.threads[u].cbFiber.None? && |y.states| == |y.progs|
    requires NothingFor(y, u) && i < |y.timers| && y.timers[i] == Some(WakeFiber(f))
    ensures Leads(y, y') && y'.queue == y.queue && y'.states == y.states + [Exec]
    ensures |y'.threads| == |y.threads| && forall v :: 0 <= v < |y.threads| && v != u ==> y'.threads[v] == y.threads[v]
    ensures Runs(y', u) && y'.threads[u].pc.fiber == |y.states| && y'.threads[u].pc.viaCb
    ensures CodeAt(y', u) == WakeOther(f)
  {
    var y1 := ExpireSleeper(y, u, i, f);
    var y2 := QueueSleeper(y1, u, f);
    LeadsOn(y, y1, y2);
    y' := RunSleeper(y2, u, y.queue, y2.queue[|y.queue|], f);
    LeadsOn(y, y2, y');
  }

  lemma SleeperWoken(y: Sys, u: nat, i: nat, f: nat) returns (y': Sys, e: Entry)
    requires AtScan(y, u) && !y.threads[u].idleOver && y.threads[u].cbFiber.None? && |y.states| == |y.progs|
    requires NothingFor(y, u) && i < |y.timers| && y.timers[i] == Some(WakeFiber(f))
    ensures Leads(y, y') && y'.queue == y.queue + [e] && e.task == FiberTask(f) && e.thread == ANY_THREAD
    ensures y'.states == y.states + [Init] && AtScan(y', u)
    ensures |y'.threads| == |y.threads| && forall v :: 0 <= v < |y.threads| && v != u ==> y'.threads[v] == y.threads[v]
  {
    var y1 := TakeAndRunSleeper(y, u, i, f);
    var y2 := SleeperQueued(y1, u, |y.states|, f);
    LeadsOn(y, y1, y2);
    y' := CacheFiber(y2, u, |y.states|);
    LeadsOn(y, y2, y');
    e := y2.queue[|y.queue|];
  }

  lemma SleeperWokenAndRequeued(y: Sys, t: nat, u: nat, i: nat, f: nat) returns (y': Sys, es: seq<Entry>)
    requires AtScan(y, u) && !y.threads[u].idleOver && y.threads[u].cbFiber.None? && |y.states| == |y.progs|
    requires NothingFor(y, u) && i < |y.timers| && y.timers[i] == Some(WakeFiber(f))
    requires AtYielded(y, t) && y.threads[t].pc.fiber == f && f < |y.states| && y.states[f].Ready?
    ensures Leads(y, y') && y'.queue == y.queue + es && |es| == 2 && y'.states == y.states + [Init] && AtScan(y', u)
    ensures forall i :: 0 <= i < 2 ==> es[i].task == FiberTask(f) && es[i].thread == ANY_THREAD
    ensures |y'.threads| == |y.threads|
    ensures forall v :: 0 <= v < |y.threads| && v != t && v != u ==> y'.threads[v] == y.threads[v]
  {
    var y1, e := SleeperWoken(y, u, i, f);
    y' := Requeue(y1, t, f);
    LeadsOn(y, y1, y');
    es := [e, y'.queue[|y1.queue|]];
  }

  /** And the same for a fiber that has armed its sleep timer. */
  lemma YieldToReadyWhileAsleepBreaks(s: Sys, t: nat, u: nat, v: nat, i: nat) returns (s': Sys)
    requires Inv(s) && Runs(s, t) && u != v && AtScan(s, u) && AtScan(s, v) && NothingFor(s, u) && NothingFor(s, v)
    requires !s.threads[u].idleOver && s.threads[u].cbFiber.None?
    requires i < |s.timers| && s.timers[i] == Some(WakeFiber(s.threads[t].pc.fiber))
    ensures Leads(Yield(s, t), s') && SwapInFails(s', v, s.threads[t].pc.fiber)
  {
    var f, y := s.threads[t].pc.fiber, Yield(s, t);
    assert ThreadOk(s, s.threads[t]) && FiberOk(s, f);
    SumAt(s.timers, i, OfTimer(WakeOf(f)));
    NotQueued(s, f);
    StaysBlocked(s.queue, u, s.states, y.states, f);
    FirstEligibleUnique(s.queue, u, y.states, |s.queue|);
    var y1, es := SleeperWokenAndRequeued(y, t, u, i, f);
    NewlyQueued(s, y1, es, u, v, f);
    s' := TwoEntriesBreakSwapIn(y1, u, v, f);
    LeadsOn(y, y1, s');
  }

  /** Such a state is reachable: a fiber goes to sleep. */
  lemma AsleepStateIsReachable() returns (s: Sys)
    ensures Reachable(s) && Runs(s, 0) && AtScan(s, 1) && AtScan(s, 2) && NothingFor(s, 1) && NothingFor(s, 2)
    ensures !s.threads[1].idleOver && s.threads[1].cbFiber.None?
    ensures s.timers == [Some(WakeFiber(s.threads[0].pc.fiber))]
  {
    var r := OneFiberRunning(3, false);
    ReachableStep(r, Code(0, Sleep));
    s := Do(r, Code(0, Sleep));
  }

  // ----- going on while registered

  /** A registered fiber whose code goes on instead of yielding. */
  function GoesOn(s: Sys, t: nat): Sys
    requires Runs(s, t)
  {
    SetProg(s, s.threads[t].pc.fiber, Free)
  }

  lemma GoesOnCounts(s: Sys, t: nat, p: Probe)
    requires Runs(s, t) && CodeAt(s, t).Registered?
    ensures Wakeups(GoesOn(s, t), p) == Wakeups(s, p)
  {
    ProgDelta(s, s.threads[t].pc.fiber, Free, p);
  }

  lemma GoesOnKeeps(s: Sys, t: nat)
    requires Inv(s) && Runs(s, t) && CodeAt(s, t).Registered? && Wakeups(s, WakeOf(s.threads[t].pc.fiber)) == 0
    ensures Inv(GoesOn(s, t))
  {
    var s' := GoesOn(s, t);
    forall p: Probe ensures Wakeups(s', p) == Wakeups(s, p) {
      GoesOnCounts(s, t, p);
    }
    CodeStep(s, s');
    SmallAppends(s, s');
    AppendKeeps(s, s', |s.threads|);
    QuietKeepsRegs(s, s');
    QuietKeepsCalls(s, s');
  }

  /** Whatever statement of client code comes instead of the yield (a second registration, a sleep, a hooked
      call), the invariant survives it if and only if the fiber has no wake-up. */
  lemma GoingOnExactly(s: Sys, t: nat, stmt: Stmt)
    requires Inv(s) && Runs(s, t) && CodeAt(s, t).Registered? && CanRun(GoesOn(s, t), t, stmt)
    ensures Inv(DoStmt(GoesOn(s, t), t, stmt)) <==> Wakeups(s, WakeOf(s.threads[t].pc.fiber)) == 0
  {
    var f, s' := s.threads[t].pc.fiber, GoesOn(s, t);
    GoesOnCounts(s, t, WakeOf(f));
    if Wakeups(s, WakeOf(f)) == 0 {
      GoesOnKeeps(s, t);
      StepKeepsInv(s', Code(t, stmt));
    } else {
      GoingOnBreaks(s', t, stmt);
    }
  }

  /** Code that is not waiting and has a wake-up does not lose it by going on. */
  lemma GoingOnBreaks(s: Sys, t: nat, stmt: Stmt)
    requires IoInv(s.io) && AtFree(s, t) && CanRun(s, t, stmt) && Wakeups(s, WakeOf(s.threads[t].pc.fiber)) > 0
    ensures !Inv(DoStmt(s, t, stmt))
  {
    var f, s' := s.threads[t].pc.fiber, DoStmt(s, t, stmt);
    StmtCounts(s, t, stmt, WakeOf(f));
    if s'.progs[f].Waiting() {
      assert !FiberOk(s', f);
    } else {
      assert !ThreadOk(s', s'.threads[t]);
    }
  }
}
