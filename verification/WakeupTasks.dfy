/** Every step keeps the conservation of queue entries and the active count (TasksOk). */
module WakeupTasks {
  import opened Counting
  import opened Tasks
  import opened FdEvents
  import opened Wakeup
  import opened WakeupInvariant
  import opened WakeupFibers

  /** New entries go behind the old ones, numbered on; the log grows without consuming. */
  predicate Appends(s: Sys, s': Sys)
  {
    && s.queue <= s'.queue && s'.nextTag == s.nextTag + |s'.queue| - |s.queue|
    && (forall i :: |s.queue| <= i < |s'.queue| ==> s'.queue[i].tag == s.nextTag + i - |s.queue|)
    && s.log <= s'.log
    && (forall i :: |s.log| <= i < |s'.log| ==> !s'.log[i].Consumed?)
    && s'.active == s.active
  }

  lemma {:induction false} NewTags(es: seq<Entry>, base: nat, k: nat)
    requires forall i :: 0 <= i < |es| ==> es[i].tag == base + i
    ensures Sum(es, QueuedTag(k)) == if base <= k < base + |es| then 1 else 0
  {
    if es != [] {
      NewTags(es[1..], base + 1, k);
    }
  }

  /** The thread that moved holds the same entry as before. */
  ghost predicate SameHolding(s: Sys, s': Sys, t: nat)
  {
    && |s'.threads| == |s.threads|
    && (t < |s.threads| ==>
          && s'.threads == s.threads[t := s'.threads[t]]
          && HoldsTask(s'.threads[t].pc) == HoldsTask(s.threads[t].pc)
          && forall k: nat :: HeldTagWeight(k, s'.threads[t].pc) == HeldTagWeight(k, s.threads[t].pc))
    && (t >= |s.threads| ==> s'.threads == s.threads)
  }

  lemma AppendKeeps(s: Sys, s': Sys, t: nat)
    requires TasksOk(s) && Appends(s, s') && SameHolding(s, s', t)
    ensures TasksOk(s')
  {
    if t < |s.threads| {
      SumUpdate(s.threads, t, s'.threads[t], ActiveWeight());
    }
    forall k: nat ensures TagOk(s', k) {
      assert TagOk(s, k);
      var es, ev := s'.queue[|s.queue|..], s'.log[|s.log|..];
      assert s'.queue == s.queue + es && s'.log == s.log + ev;
      SumAppend(s.queue, es, QueuedTag(k));
      NewTags(es, s.nextTag, k);
      SumAppend(s.log, ev, ConsumedTag(k));
      SumZero(ev, ConsumedTag(k));
      if t < |s.threads| {
        SumUpdate(s.threads, t, s'.threads[t], HeldTag(k));
      }
    }
  }

  lemma AbsorbAppends(s: Sys, o: Outcome)
    ensures Appends(s, Absorb(s, o)) && Absorb(s, o).threads == s.threads
  {
  }

  /** A push, or an entry in the log that consumes nothing, or neither. */
  lemma SmallAppends(s: Sys, s': Sys)
    requires (s'.queue == s.queue && s'.nextTag == s.nextTag)
             || exists task, thread :: s'.queue == s.queue + [Entry(task, thread, s.nextTag)]
                 && s'.nextTag == s.nextTag + 1
    requires s'.log == s.log || exists e: Event :: s'.log == s.log + [e] && !e.Consumed?
    requires s'.active == s.active
    ensures Appends(s, s')
  {
  }

  predicate UsesFds(stmt: Stmt) { stmt.RegisterSelf? || stmt.RegisterCb? || stmt.AddWait? || stmt.RunTimeoutFire? }

  lemma FdStmtAppends(s: Sys, t: nat, stmt: Stmt)
    requires CanRun(s, t, stmt) && UsesFds(stmt)
    ensures Appends(s, DoStmt(s, t, stmt)) && DoStmt(s, t, stmt).threads == s.threads
  {
    var f := s.threads[t].pc.fiber;
    match stmt
    case RegisterSelf(fd, ev, fault) => AbsorbAppends(s, AddEvent(s.io, fd, ev, FiberTask(f), fault));
    case RegisterCb(fd, ev, id, fault) => AbsorbAppends(s, AddEvent(s.io, fd, ev, CbTask(Client(id)), fault));
    case AddWait(fault) => AbsorbAppends(s, AddEvent(s.io, CodeAt(s, t).fd, CodeAt(s, t).ev, FiberTask(f), fault));
    case RunTimeoutFire(fault) => AbsorbAppends(s, CancelEvent(s.io, CodeAt(s, t).fd, CodeAt(s, t).ev, fault));
  }

  lemma CancelTimeoutAppends(s: Sys, t: nat)
    requires AtDisarm(s, t)
    ensures Appends(s, DoCancelTimeout(s, t)) && DoCancelTimeout(s, t).threads == s.threads
  {
    match CodeAt(s, t)
    case CallWoken(_, _, _, _) => SmallAppends(s, DoCancelTimeout(s, t));
    case CallFailed(_, _) => SmallAppends(s, DoCancelTimeout(s, t));
  }

  lemma StmtAppends(s: Sys, t: nat, stmt: Stmt)
    requires CanRun(s, t, stmt)
    ensures Appends(s, DoStmt(s, t, stmt)) && DoStmt(s, t, stmt).threads == s.threads
  {
    if UsesFds(stmt) {
      FdStmtAppends(s, t, stmt);
    } else if stmt.CancelTimeout? {
      CancelTimeoutAppends(s, t);
    } else {
      SmallAppends(s, DoStmt(s, t, stmt));
    }
  }

  lemma DeedAppends(s: Sys, deed: Deed)
    requires CanHappen(s, deed)
    ensures Appends(s, DoDeed(s, deed)) && DoDeed(s, deed).threads == s.threads
  {
    match deed
    case Spawn(_) => SmallAppends(s, DoDeed(s, deed));
    case SpawnCb(_, _) => SmallAppends(s, DoDeed(s, deed));
    case ScheduleParked(_, _) => SmallAppends(s, DoDeed(s, deed));
    case ClientTimer(_) =>
    case RequestStop =>
    case DropEvent(fd, ev, fault) => AbsorbAppends(s, DelEvent(s.io, fd, ev, fault));
    case Cancel(fd, ev, fault) => AbsorbAppends(s, CancelEvent(s.io, fd, ev, fault));
    case CancelFd(fd, fault) => AbsorbAppends(s, CancelAll(s.io, fd, fault));
    case Report(_, fd, r, fault) => AbsorbAppends(s, Dispatch(s.io, fd, r, fault));
  }

  /** Taking an entry: from the queue to the thread. */
  lemma ScanKeepsTasks(s: Sys, t: nat)
    requires TasksOk(s) && AtScan(s, t)
    ensures TasksOk(DoScan(s, t))
  {
    var s' := DoScan(s, t);
    var i := FirstEligible(s.queue, t, s.states);
    if i < |s.queue| {
      SumUpdate(s.threads, t, s'.threads[t], ActiveWeight());
      forall k: nat ensures TagOk(s', k) {
        assert TagOk(s, k);
        SumRemove(s.queue, i, QueuedTag(k));
        SumUpdate(s.threads, t, s'.threads[t], HeldTag(k));
      }
    } else {
      AppendKeeps(s, s', t);
    }
  }

  /** Consuming an entry: from the thread to the log, with the count. */
  lemma ConsumeKeeps(s: Sys, s': Sys, t: nat, tag: nat)
    requires TasksOk(s) && t < |s.threads| == |s'.threads| && HoldsTask(s.threads[t].pc)
    requires forall k: nat :: HeldTagWeight(k, s.threads[t].pc) == if k == tag then 1 else 0
    requires s'.threads == s.threads[t := s.threads[t].(pc := s'.threads[t].pc)] && !HoldsTask(s'.threads[t].pc)
    requires s'.queue == s.queue && s'.nextTag == s.nextTag && s'.active == s.active - 1
    requires s'.log == s.log + [Consumed(tag)]
    ensures TasksOk(s')
  {
    SumUpdate(s.threads, t, s'.threads[t], ActiveWeight());
    forall k: nat ensures TagOk(s', k) {
      assert TagOk(s, k);
      SumSnoc(s.log, Consumed(tag), ConsumedTag(k));
      SumUpdate(s.threads, t, s'.threads[t], HeldTag(k));
    }
  }

  /** A switch to a fiber: the entry's number goes with it. */
  lemma SwapInShape(s: Sys, t: nat)
    requires AtPicked(s, t)
    requires var task := s.threads[t].pc.entry.task;
             task.FiberTask? ==> !StateOf(s.states, task.fiber).Finished()
    ensures var s', th := DoSwitch(s, t), s.threads[t];
            && |s'.threads| == |s.threads| && s'.threads == s.threads[t := s'.threads[t]]
            && s'.threads[t].pc.Running? && s'.threads[t].pc.entry == th.pc.entry
            && s'.queue == s.queue && s'.nextTag == s.nextTag && s'.active == s.active
            && s'.log == s.log && s'.io == s.io && s'.calls == s.calls && s'.timers == s.timers
  {
    match s.threads[t].pc.entry.task
    case FiberTask(_) =>
    case CbTask(_) =>
  }

  lemma SwitchKeepsTasks(s: Sys, t: nat)
    requires TasksOk(s) && AtPicked(s, t)
    ensures TasksOk(DoSwitch(s, t))
  {
    var e := s.threads[t].pc.entry;
    if e.task.FiberTask? && StateOf(s.states, e.task.fiber).Finished() {
      ConsumeKeeps(s, DoSwitch(s, t), t, e.tag);
    } else {
      SwapInShape(s, t);
      AppendKeeps(s, DoSwitch(s, t), t);
    }
  }

  lemma CountDownKeepsTasks(s: Sys, t: nat)
    requires TasksOk(s) && AtYielded(s, t)
    ensures TasksOk(DoCountDown(s, t))
  {
    ConsumeKeeps(s, DoCountDown(s, t), t, s.threads[t].pc.entry.tag);
  }

  lemma StoppingAppends(s: Sys, t: nat, move: Move)
    requires CanMove(s, t, move) && InStopping(move)
    ensures Appends(s, DoMove(s, t, move)) && SameHolding(s, DoMove(s, t, move), t)
  {
  }

  /** The remaining steps of scheduler threads neither take nor consume an entry. */
  lemma MoveAppends(s: Sys, t: nat, move: Move)
    requires CanMove(s, t, move) && !move.Scan? && !move.Switch? && !move.CountDown?
    ensures Appends(s, DoMove(s, t, move)) && SameHolding(s, DoMove(s, t, move), t)
  {
    if InStopping(move) {
      StoppingAppends(s, t, move);
    }
  }

  lemma MoveKeepsTasks(s: Sys, t: nat, move: Move)
    requires TasksOk(s) && CanMove(s, t, move)
    ensures TasksOk(DoMove(s, t, move))
  {
    if move.Scan? {
      ScanKeepsTasks(s, t);
    } else if move.Switch? {
      SwitchKeepsTasks(s, t);
    } else if move.CountDown? {
      CountDownKeepsTasks(s, t);
    } else {
      MoveAppends(s, t, move);
      AppendKeeps(s, DoMove(s, t, move), t);
    }
  }

  lemma StepKeepsTasks(s: Sys, a: Action)
    requires TasksOk(s) && Can(s, a)
    ensures TasksOk(Do(s, a))
  {
    match a
    case Loop(t, move) => MoveKeepsTasks(s, t, move);
    case Code(t, stmt) =>
      StmtAppends(s, t, stmt);
      AppendKeeps(s, Do(s, a), |s.threads|);
    case Outside(deed) =>
      DeedAppends(s, deed);
      AppendKeeps(s, Do(s, a), |s.threads|);
  }
}
