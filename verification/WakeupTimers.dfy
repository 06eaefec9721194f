/** A hooked call's timers do not outlive it: once the call has returned, none of them is armed. */
module WakeupTimers {
  import opened Counting
  import opened Tasks
  import opened FdEvents
  import opened Wakeup
  import opened WakeupInvariant
  import opened WakeupFibers
  import opened WakeupTasks
  import opened WakeupHistory
  import opened WakeupTheorems
  import opened WakeupNoLoss
  import opened WakeupOutcomes

  /** The code is in call `c` and is going to cancel timer `i`. */
  predicate Owns(prog: Prog, c: nat, i: nat) { CallIdOf(prog) == Some(c) && TimerOf(prog) == Some(i) }

  ghost predicate HasOwner(s: Sys, c: nat, i: nat)
  {
    exists f :: 0 <= f < |s.progs| && Owns(s.progs[f], c, i)
  }

  /** An armed timeout timer is going to be cancelled by the call that armed it. */
  ghost predicate Owned(s: Sys, i: nat)
    requires i < |s.timers|
  {
    s.timers[i].Some? && s.timers[i].value.TimeoutCall? ==> HasOwner(s, s.timers[i].value.call, i)
  }

  predicate FreeAt(s: Sys, f: nat) { f < |s.progs| ==> s.progs[f].Free? }

  /** A fiber that has ended, or is cached, has left its last call. */
  predicate RestOk(s: Sys, th: Thread)
  {
    && (th.cbFiber.Some? ==> FreeAt(s, th.cbFiber.value))
    && ((th.pc.Yielded? || th.pc.Counted?) && th.pc.how.ByEnd? ==> FreeAt(s, th.pc.fiber))
  }

  predicate LiveCode(s: Sys, prog: Prog) { CallIdOf(prog).Some? ==> CallOf(s, CallIdOf(prog).value).live }

  /** The event says that its call has returned. */
  predicate Ends(e: Event, c: nat) { e == Returned(c) || e == TimedOut(c) }

  predicate DeadEvent(s: Sys, e: Event)
  {
    e.Returned? || e.TimedOut? ==> e.call < |s.calls| && !s.calls[e.call].live
  }

  ghost predicate OwnersOk(s: Sys) { forall i :: 0 <= i < |s.timers| ==> Owned(s, i) }

  ghost predicate RestsOk(s: Sys) { forall t :: 0 <= t < |s.threads| ==> RestOk(s, s.threads[t]) }

  /** No two fibers are in the same call; the calls fibers are in are live, those that returned dead. */
  ghost predicate LivesOk(s: Sys)
  {
    && (forall f, g :: 0 <= f < |s.progs| && 0 <= g < |s.progs| && f != g && CallIdOf(s.progs[f]).Some? ==>
          CallIdOf(s.progs[f]) != CallIdOf(s.progs[g]))
    && (forall f :: 0 <= f < |s.progs| ==> LiveCode(s, s.progs[f]))
    && (forall i :: 0 <= i < |s.log| ==> DeadEvent(s, s.log[i]))
  }

  ghost predicate HasEnded(s: Sys, c: nat) { exists i :: 0 <= i < |s.log| && Ends(s.log[i], c) }

  /** A call that is no longer live has returned. */
  ghost predicate DeadOk(s: Sys) { forall c :: 0 <= c < |s.calls| && !s.calls[c].live ==> HasEnded(s, c) }

  ghost predicate Timely(s: Sys) { OwnersOk(s) && RestsOk(s) && LivesOk(s) && DeadOk(s) && CallsKnown(s) }

  // ----- steps that leave the code where it is

  /** Codes keep their call and their timer, or lose a call they had none of; timers are only disarmed
      or added by others. */
  predicate SameCode(s: Sys, s': Sys)
  {
    && |s.progs| <= |s'.progs|
    && (forall f :: 0 <= f < |s.progs| ==>
        CallIdOf(s'.progs[f]) == CallIdOf(s.progs[f]) && TimerOf(s'.progs[f]) == TimerOf(s.progs[f]))
    && (forall f :: |s.progs| <= f < |s'.progs| ==> CallIdOf(s'.progs[f]).None?)
    && |s.timers| <= |s'.timers|
    && (forall i :: 0 <= i < |s.timers| ==> s'.timers[i] == s.timers[i] || s'.timers[i].None?)
    && (forall i :: |s.timers| <= i < |s'.timers| ==> s'.timers[i].Some? && s'.timers[i].value.Client?)
    && s'.calls == s.calls
    && s.log <= s'.log && (forall i :: |s.log| <= i < |s'.log| ==> !s'.log[i].Returned? && !s'.log[i].TimedOut?)
  }

  lemma SameCodeKeepsOwners(s: Sys, s': Sys)
    requires OwnersOk(s) && SameCode(s, s')
    ensures OwnersOk(s')
  {
    forall i | 0 <= i < |s'.timers| ensures Owned(s', i) {
      if i < |s.timers| && s'.timers[i].Some? && s'.timers[i].value.TimeoutCall? {
        assert Owned(s, i);
        var c := s.timers[i].value.call;
        var f :| 0 <= f < |s.progs| && Owns(s.progs[f], c, i);
        assert Owns(s'.progs[f], c, i);
      }
    }
  }

  lemma SameCodeKeepsLives(s: Sys, s': Sys)
    requires LivesOk(s) && SameCode(s, s')
    ensures LivesOk(s')
  {
    forall f | 0 <= f < |s'.progs| ensures LiveCode(s', s'.progs[f]) {
      assert f < |s.progs| ==> LiveCode(s, s.progs[f]);
    }
    forall i | 0 <= i < |s'.log| ensures DeadEvent(s', s'.log[i]) {
      assert i < |s.log| ==> DeadEvent(s, s.log[i]);
    }
  }

  lemma EndedStays(s: Sys, s': Sys, c: nat)
    requires HasEnded(s, c) && s.log <= s'.log
    ensures HasEnded(s', c)
  {
    var i :| 0 <= i < |s.log| && Ends(s.log[i], c);
    assert Ends(s'.log[i], c);
  }

  lemma SameCodeKeepsDead(s: Sys, s': Sys)
    requires DeadOk(s) && SameCode(s, s')
    ensures DeadOk(s')
  {
    forall c | 0 <= c < |s'.calls| && !s'.calls[c].live ensures HasEnded(s', c) {
      EndedStays(s, s', c);
    }
  }

  /** Scheduler threads log only consumed entries. */
  lemma MoveLogs(s: Sys, t: nat, move: Move)
    requires CanMove(s, t, move) && !move.Switch?
    ensures var s' := DoMove(s, t, move);
            && s.log <= s'.log && (forall i :: |s.log| <= i < |s'.log| ==> s'.log[i].Consumed?)
            && |s'.timers| == |s.timers| && TimersGrow(s, s')
  {
  }

  lemma MoveSameCode(s: Sys, t: nat, move: Move)
    requires CanMove(s, t, move) && !move.Switch?
    ensures SameCode(s, DoMove(s, t, move))
  {
    MoveLogs(s, t, move);
    MoveCalls(s, t, move);
  }

  /** The thread that moved: what it has just let end, or cached, is at a free point. */
  lemma MoveRests(s: Sys, t: nat, move: Move)
    requires CanMove(s, t, move) && !move.Switch? && RestOk(s, s.threads[t]) && ThreadOk(s, s.threads[t])
    ensures RestOk(s, DoMove(s, t, move).threads[t])
  {
  }

  lemma MoveKeepsRests(s: Sys, t: nat, move: Move)
    requires Inv(s) && RestsOk(s) && CanMove(s, t, move) && !move.Switch?
    ensures RestsOk(DoMove(s, t, move))
  {
    var s' := DoMove(s, t, move);
    MoveShape(s, t, move);
    MoveCalls(s, t, move);
    forall u | 0 <= u < |s'.threads| ensures RestOk(s', s'.threads[u]) {
      assert RestOk(s, s.threads[u]) && ThreadOk(s, s.threads[u]);
      if u == t {
        MoveRests(s, t, move);
      }
    }
  }

  // ----- switching

  /** The code switched to goes on with its call, or was in none. */
  lemma SwitchIds(s: Sys, t: nat)
    requires |s.states| == |s.progs| && AtPicked(s, t) && RestOk(s, s.threads[t])
    ensures var s' := DoSwitch(s, t);
            && |s.progs| <= |s'.progs|
            && (forall f :: 0 <= f < |s.progs| ==>
                  CallIdOf(s'.progs[f]) == CallIdOf(s.progs[f]) && TimerOf(s'.progs[f]) == TimerOf(s.progs[f]))
            && (forall f :: |s.progs| <= f < |s'.progs| ==> CallIdOf(s'.progs[f]).None?)
  {
    match s.threads[t].pc.entry.task
    case FiberTask(_) =>
    case CbTask(_) =>
      match s.threads[t].cbFiber
      case Some(_) =>
      case None =>
  }

  lemma SwitchLogs(s: Sys, t: nat)
    requires AtPicked(s, t)
    ensures var s' := DoSwitch(s, t);
            && s'.timers == s.timers && s'.calls == s.calls
            && s.log <= s'.log && forall i :: |s.log| <= i < |s'.log| ==> s'.log[i].Consumed?
  {
    var task := s.threads[t].pc.entry.task;
    if !(task.FiberTask? && StateOf(s.states, task.fiber).Finished()) {
      SwapInShape(s, t);
    }
  }

  lemma SwitchSameCode(s: Sys, t: nat)
    requires Inv(s) && RestsOk(s) && AtPicked(s, t)
    ensures SameCode(s, DoSwitch(s, t))
  {
    assert RestOk(s, s.threads[t]);
    SwitchIds(s, t);
    SwitchLogs(s, t);
  }

  /** Others' ended and cached fibers are not the one switched to. */
  lemma SwapInKeepsRests(s: Sys, t: nat, f: nat)
    requires Inv(s) && RestsOk(s) && AboutToRun(s, t, f)
    ensures RestsOk(DoSwitch(s, t))
  {
    var s' := DoSwitch(s, t);
    AboutToRunAlone(s, t, f);
    SwitchShape(s, t, f);
    forall u | 0 <= u < |s'.threads| ensures RestOk(s', s'.threads[u]) {
      assert RestOk(s, s.threads[u]);
      if u != t {
        assert Uninvolved(s, u, f, Exec);
      }
    }
  }

  lemma SwitchOtherKeepsRests(s: Sys, t: nat)
    requires Inv(s) && RestsOk(s) && AtPicked(s, t)
    requires RunsNoOldFiber(s, t)
    ensures RestsOk(DoSwitch(s, t))
  {
    var s' := DoSwitch(s, t);
    SwitchedCode(s, t);
    forall u | 0 <= u < |s'.threads| ensures RestOk(s', s'.threads[u]) {
      assert RestOk(s, s.threads[u]) && ThreadOk(s, s.threads[u]);
    }
  }

  lemma SwitchKeepsRests(s: Sys, t: nat)
    requires Inv(s) && RestsOk(s) && AtPicked(s, t)
    ensures RestsOk(DoSwitch(s, t))
  {
    var th := s.threads[t];
    match th.pc.entry.task
    case FiberTask(f) =>
      ThreadsBound(s, t, WakeOf(f));
      assert FiberOk(s, f);
      if StateOf(s.states, f).Finished() {
        SwitchOtherKeepsRests(s, t);
      } else {
        SwapInKeepsRests(s, t, f);
      }
    case CbTask(_) =>
      if th.cbFiber.None? {
        SwitchOtherKeepsRests(s, t);
      } else {
        assert ThreadOk(s, th);
        SwapInKeepsRests(s, t, th.cbFiber.value);
      }
  }

  lemma MoveKeepsTimely(s: Sys, t: nat, move: Move)
    requires Inv(s) && Timely(s) && CanMove(s, t, move)
    ensures Timely(DoMove(s, t, move))
  {
    if move.Switch? {
      SwitchSameCode(s, t);
      SwitchKeepsRests(s, t);
    } else {
      MoveSameCode(s, t, move);
      MoveKeepsRests(s, t, move);
    }
    SameCodeKeepsOwners(s, DoMove(s, t, move));
    SameCodeKeepsLives(s, DoMove(s, t, move));
    SameCodeKeepsDead(s, DoMove(s, t, move));
    MoveKeepsKnown(s, t, move);
  }

  // ----- steps from outside

  lemma DeedSameCode(s: Sys, deed: Deed)
    requires CanHappen(s, deed)
    ensures SameCode(s, DoDeed(s, deed))
  {
    DeedShape(s, deed);
    DeedIsOutcome(s, deed);
    DeedTimers(s, deed);
  }

  lemma DeedTimers(s: Sys, deed: Deed)
    requires CanHappen(s, deed)
    ensures DoDeed(s, deed).timers == if deed.ClientTimer? then s.timers + [Some(Client(deed.id))] else s.timers
  {
  }

  lemma DeedKeepsTimely(s: Sys, deed: Deed)
    requires Inv(s) && Timely(s) && CanHappen(s, deed)
    ensures Timely(DoDeed(s, deed))
  {
    var s' := DoDeed(s, deed);
    DeedSameCode(s, deed);
    DeedShape(s, deed);
    SameCodeKeepsOwners(s, s');
    SameCodeKeepsLives(s, s');
    SameCodeKeepsDead(s, s');
    DeedKeepsKnown(s, deed);
    forall u | 0 <= u < |s'.threads| ensures RestOk(s', s'.threads[u]) {
      assert RestOk(s, s.threads[u]) && ThreadOk(s, s.threads[u]);
    }
  }

  // ----- a fiber's own code

  /** The call the code is in stays, ends, or is new. */
  predicate CallMoves(s: Sys, s': Sys, was: Prog, now: Prog)
  {
    && |s.calls| <= |s'.calls|
    && (forall c :: 0 <= c < |s.calls| && (Some(c) != CallIdOf(was) || CallIdOf(now) == CallIdOf(was)) ==>
          s'.calls[c].live == s.calls[c].live)
    && (forall c :: 0 <= c < |s.calls| && s'.calls[c].live ==> s.calls[c].live)
    && (CallIdOf(now).Some? && CallIdOf(now) != CallIdOf(was) ==>
          CallIdOf(now).value == |s.calls| < |s'.calls| && s'.calls[|s.calls|].live)
    && (forall c :: |s.calls| <= c < |s'.calls| ==> s'.calls[c].live)
  }

  /** Only the call the code leaves ends, and it ends with an entry in the log. */
  predicate CallEnds(s: Sys, s': Sys, was: Prog, now: Prog)
  {
    && s.log <= s'.log
    && (forall c :: 0 <= c < |s.calls| <= |s'.calls| && s.calls[c].live && !s'.calls[c].live ==>
          |s.log| < |s'.log| && Ends(s'.log[|s.log|], c))
    && forall i :: |s.log| <= i < |s'.log| && (s'.log[i].Returned? || s'.log[i].TimedOut?) ==>
         CallIdOf(was) == Some(s'.log[i].call) && CallIdOf(now).None? && DeadEvent(s', s'.log[i])
  }

  /** Its timer stays its own until it is disarmed; a new one is its own. */
  predicate TimerMoves(s: Sys, s': Sys, was: Prog, now: Prog)
  {
    && TimersGrow(s, s')
    && (forall i :: |s.timers| <= i < |s'.timers| && s'.timers[i].Some? && s'.timers[i].value.TimeoutCall? ==>
          Owns(now, s'.timers[i].value.call, i))
    && (TimerOf(was).Some? && TimerOf(was).value < |s'.timers| && s'.timers[TimerOf(was).value].Some? ==>
          TimerOf(now) == TimerOf(was) && CallIdOf(now) == CallIdOf(was))
  }

  predicate CodeEffect(s: Sys, s': Sys, was: Prog, now: Prog)
  {
    CallMoves(s, s', was, now) && CallEnds(s, s', was, now) && TimerMoves(s, s', was, now)
  }

  /** Fd operations: the call goes on with the timer it has. */
  lemma FdStmtCode(s: Sys, t: nat, stmt: Stmt)
    requires CanRun(s, t, stmt) && UsesFds(stmt)
    ensures var s', f := DoStmt(s, t, stmt), s.threads[t].pc.fiber;
            f < |s'.progs| && CodeEffect(s, s', s.progs[f], s'.progs[f])
  {
    StmtIsOutcome(s, t, stmt);
    if stmt.AddWait? {
      AddWaitTimers(s, t, stmt.fault);
      AddWaitCall(s, t, stmt.fault);
    } else {
      FdStmtTimers(s, t, stmt);
      FdStmtCalls(s, t, stmt);
    }
  }

  lemma AddWaitCall(s: Sys, t: nat, fault: bool)
    requires AtAdd(s, t)
    ensures var s', f := DoAddWait(s, t, fault), s.threads[t].pc.fiber;
            f < |s'.progs| && CallIdOf(s'.progs[f]) == CallIdOf(s.progs[f])
  {
  }

  lemma CancelTimeoutCode(s: Sys, t: nat)
    requires AtDisarm(s, t) && Known(s, CodeAt(s, t))
    ensures var s', f := DoCancelTimeout(s, t), s.threads[t].pc.fiber;
            f < |s'.progs| && CodeEffect(s, s', s.progs[f], s'.progs[f])
  {
    match CodeAt(s, t)
    case CallWoken(_, _, _, _) =>
    case CallFailed(_, _) =>
  }

  lemma ArmTimeoutCode(s: Sys, t: nat, wanted: bool)
    requires AtArm(s, t)
    ensures var s', f := DoArmTimeout(s, t, wanted), s.threads[t].pc.fiber;
            f < |s'.progs| && CodeEffect(s, s', s.progs[f], s'.progs[f])
  {
  }

  lemma TimeoutSetCode(s: Sys, t: nat)
    requires AtTimeoutSet(s, t)
    ensures var s', f := DoRunTimeoutSet(s, t), s.threads[t].pc.fiber;
            f < |s'.progs| && CodeEffect(s, s', s.progs[f], s'.progs[f])
  {
  }

  lemma CheckTimeoutCode(s: Sys, t: nat)
    requires AtCheck(s, t) && Known(s, CodeAt(s, t))
    ensures var s', f := DoCheckTimeout(s, t), s.threads[t].pc.fiber;
            f < |s'.progs| && CodeEffect(s, s', s.progs[f], s'.progs[f])
  {
  }

  lemma TimeoutStmtCode(s: Sys, t: nat, stmt: Stmt)
    requires CanRun(s, t, stmt) && ForTimeouts(stmt) && Known(s, CodeAt(s, t))
    ensures var s', f := DoStmt(s, t, stmt), s.threads[t].pc.fiber;
            f < |s'.progs| && CodeEffect(s, s', s.progs[f], s'.progs[f])
  {
    match stmt
    case ArmTimeout(wanted) => ArmTimeoutCode(s, t, wanted);
    case RunTimeoutSet => TimeoutSetCode(s, t);
    case CheckTimeout => CheckTimeoutCode(s, t);
  }

  lemma RawAgainCode(s: Sys, t: nat, blocks: bool)
    requires AtRetry(s, t) && Known(s, CodeAt(s, t))
    ensures var s', f := DoRawAgain(s, t, blocks), s.threads[t].pc.fiber;
            f < |s'.progs| && CodeEffect(s, s', s.progs[f], s'.progs[f])
  {
  }

  lemma PlainStmtCode(s: Sys, t: nat, stmt: Stmt)
    requires CanRun(s, t, stmt) && !UsesFds(stmt) && !ForTimeouts(stmt) && !stmt.CancelTimeout?
      && Known(s, CodeAt(s, t))
    ensures var s', f := DoStmt(s, t, stmt), s.threads[t].pc.fiber;
            f < |s'.progs| && CodeEffect(s, s', s.progs[f], s'.progs[f])
  {
    if stmt.RawAgain? {
      RawAgainCode(s, t, stmt.blocks);
    }
  }

  lemma StmtCode(s: Sys, t: nat, stmt: Stmt)
    requires CanRun(s, t, stmt) && Runs(s, t) && Known(s, CodeAt(s, t))
    ensures var s', f := DoStmt(s, t, stmt), s.threads[t].pc.fiber;
            f < |s'.progs| && CodeEffect(s, s', s.progs[f], s'.progs[f])
  {
    if UsesFds(stmt) {
      FdStmtCode(s, t, stmt);
    } else if ForTimeouts(stmt) {
      TimeoutStmtCode(s, t, stmt);
    } else if stmt.CancelTimeout? {
      CancelTimeoutCode(s, t);
    } else {
      PlainStmtCode(s, t, stmt);
    }
  }

  /** Only the code of `f` has moved. */
  predicate OnlyCodeOf(s: Sys, s': Sys, f: nat)
  {
    && f < |s.progs| == |s'.progs| && s'.threads == s.threads
    && forall g :: 0 <= g < |s.progs| && g != f ==> s'.progs[g] == s.progs[g]
  }

  lemma CodeKeepsOwners(s: Sys, s': Sys, f: nat)
    requires OwnersOk(s) && OnlyCodeOf(s, s', f) && TimerMoves(s, s', s.progs[f], s'.progs[f])
    ensures OwnersOk(s')
  {
    forall i | 0 <= i < |s'.timers| ensures Owned(s', i) {
      if s'.timers[i].Some? && s'.timers[i].value.TimeoutCall? {
        var c := s'.timers[i].value.call;
        if i < |s.timers| {
          assert Owned(s, i);
          var g :| 0 <= g < |s.progs| && Owns(s.progs[g], c, i);
          assert Owns(s'.progs[g], c, i);
        } else {
          assert Owns(s'.progs[f], c, i);
        }
      }
    }
  }

  lemma CodeKeepsLives(s: Sys, s': Sys, f: nat)
    requires LivesOk(s) && CallsKnown(s) && OnlyCodeOf(s, s', f)
    requires CallMoves(s, s', s.progs[f], s'.progs[f]) && CallEnds(s, s', s.progs[f], s'.progs[f])
    ensures LivesOk(s')
  {
    assert Known(s, s.progs[f]) && LiveCode(s, s.progs[f]);
    forall g | 0 <= g < |s'.progs| ensures LiveCode(s', s'.progs[g]) {
      assert Known(s, s.progs[g]) && LiveCode(s, s.progs[g]);
    }
    forall i | 0 <= i < |s'.log| ensures DeadEvent(s', s'.log[i]) {
      assert i < |s.log| ==> DeadEvent(s, s.log[i]);
    }
    forall g, h | 0 <= g < |s'.progs| && 0 <= h < |s'.progs| && g != h && CallIdOf(s'.progs[g]).Some?
      ensures CallIdOf(s'.progs[g]) != CallIdOf(s'.progs[h])
    {
      assert Known(s, s.progs[g]) && Known(s, s.progs[h]);
    }
  }

  lemma CodeKeepsDead(s: Sys, s': Sys, f: nat)
    requires DeadOk(s) && OnlyCodeOf(s, s', f)
    requires CallMoves(s, s', s.progs[f], s'.progs[f]) && CallEnds(s, s', s.progs[f], s'.progs[f])
    ensures DeadOk(s')
  {
    forall c | 0 <= c < |s'.calls| && !s'.calls[c].live ensures HasEnded(s', c) {
      if c < |s.calls| && !s.calls[c].live {
        EndedStays(s, s', c);
      } else if c < |s.calls| {
        assert Ends(s'.log[|s.log|], c);
      }
    }
  }

  lemma CodeKeepsRests(s: Sys, s': Sys, t: nat)
    requires Inv(s) && RestsOk(s) && Runs(s, t) && OnlyCodeOf(s, s', s.threads[t].pc.fiber)
    ensures RestsOk(s')
  {
    var f := s.threads[t].pc.fiber;
    OthersUninvolved(s, t, f, FiberState.Hold);
    forall u | 0 <= u < |s'.threads| ensures RestOk(s', s'.threads[u]) {
      assert RestOk(s, s.threads[u]) && ThreadOk(s, s.threads[u]);
      if u != t {
        assert Uninvolved(s, u, f, FiberState.Hold);
      }
    }
  }

  lemma StmtKeepsTimely(s: Sys, t: nat, stmt: Stmt)
    requires Inv(s) && Timely(s) && CanRun(s, t, stmt)
    ensures Timely(DoStmt(s, t, stmt))
  {
    var s' := DoStmt(s, t, stmt);
    StmtCounts(s, t, stmt, TimeoutOf(0));
    var f := s.threads[t].pc.fiber;
    assert Known(s, s.progs[f]);
    StmtCode(s, t, stmt);
    CodeKeepsOwners(s, s', f);
    CodeKeepsLives(s, s', f);
    CodeKeepsDead(s, s', f);
    CodeKeepsRests(s, s', t);
    StmtKeepsKnown(s, t, stmt);
  }

  // ----- whole runs

  lemma StepKeepsTimely(s: Sys, a: Action)
    requires Inv(s) && Timely(s) && Can(s, a)
    ensures Timely(Do(s, a))
  {
    match a
    case Loop(t, move) => MoveKeepsTimely(s, t, move);
    case Code(t, stmt) => StmtKeepsTimely(s, t, stmt);
    case Outside(deed) => DeedKeepsTimely(s, deed);
  }

  lemma {:induction false} RunKeepsTimely(s: Sys, run: seq<Action>)
    requires Inv(s) && Timely(s) && ValidRun(s, run)
    ensures Timely(After(s, run))
    decreases |run|
  {
    if run != [] {
      StepKeepsInv(s, run[0]);
      StepKeepsTimely(s, run[0]);
      RunKeepsTimely(Do(s, run[0]), run[1..]);
    }
  }

  lemma ReachableTimely(s: Sys)
    requires Reachable(s)
    ensures Timely(s)
  {
    var n: nat, run :| ValidRun(InitialSys(n), run) && After(InitialSys(n), run) == s;
    InitialInv(n);
    RunKeepsTimely(InitialSys(n), run);
  }

  /** In every reachable state an armed timeout timer belongs to a call that has not returned, and one
      fiber is in that call and going to cancel it. */
  lemma ArmedTimeoutIsOwned(s: Sys, i: nat)
    requires Reachable(s) && i < |s.timers| && s.timers[i].Some? && s.timers[i].value.TimeoutCall?
    ensures HasOwner(s, s.timers[i].value.call, i) && CallOf(s, s.timers[i].value.call).live
  {
    ReachableTimely(s);
    OwnedIsLive(s, i);
  }

  lemma OwnedIsLive(s: Sys, i: nat)
    requires OwnersOk(s) && LivesOk(s) && i < |s.timers| && s.timers[i].Some? && s.timers[i].value.TimeoutCall?
    ensures HasOwner(s, s.timers[i].value.call, i) && CallOf(s, s.timers[i].value.call).live
  {
    assert Owned(s, i);
    var f :| 0 <= f < |s.progs| && Owns(s.progs[f], s.timers[i].value.call, i);
    assert LiveCode(s, s.progs[f]);
  }

  /** So a call that has returned, with ETIMEDOUT or otherwise, has left no timer behind. */
  lemma ReturnedCallLeftNoTimer(s: Sys, j: nat, c: nat, i: nat)
    requires Reachable(s) && j < |s.log| && Ends(s.log[j], c) && i < |s.timers|
    ensures !(s.timers[i].Some? && s.timers[i].value.TimeoutCall? && s.timers[i].value.call == c)
  {
    ReachableTimely(s);
    assert DeadEvent(s, s.log[j]);
    if s.timers[i].Some? && s.timers[i].value.TimeoutCall? && s.timers[i].value.call == c {
      OwnedIsLive(s, i);
      assert false;
    }
  }

  // ----- callbacks that run late

  ghost predicate Held(s: Sys, c: nat) { exists f :: 0 <= f < |s.progs| && s.progs[f].Holds(c) }

  /** A timer callback that is outstanding is of a call that exists. */
  lemma OutstandingIsKnown(s: Sys, c: nat)
    requires CallsKnown(s) && CallOk(s, c) && Wakeups(s, TimeoutOf(c)) >= 1
    ensures c < |s.calls|
  {
    var i := SumPositive(s.log, ArmedFor(c));
    assert EventKnown(s, s.log[i]);
  }

  lemma LiveExactly(s: Sys, c: nat)
    requires LivesOk(s) && DeadOk(s) && c < |s.calls|
    ensures s.calls[c].live <==> !HasEnded(s, c)
  {
    if HasEnded(s, c) {
      var i :| 0 <= i < |s.log| && Ends(s.log[i], c);
      assert DeadEvent(s, s.log[i]);
    }
  }

  /** An expired callback gets hold of its call's timer_info if and only if the call has not returned or
      another callback of the call holds it; otherwise it does nothing. */
  lemma CallbackLocksExactly(s: Sys, t: nat)
    requires Reachable(s) && AtTimeoutLock(s, t)
    ensures var TimeoutLock(c, fd, ev) := CodeAt(s, t);
            DoRunTimeoutLock(s, t)
              == SetProg(s, s.threads[t].pc.fiber,
                         if !HasEnded(s, c) || Held(s, c) then TimeoutCheck(c, fd, ev) else Free)
  {
    var c := CodeAt(s, t).call;
    ReachableInv(s);
    ReachableTimely(s);
    SumAt(s.progs, s.threads[t].pc.fiber, OfProg(TimeoutOf(c)));
    assert CallOk(s, c);
    OutstandingIsKnown(s, c);
    LiveExactly(s, c);
  }

  /** So one that runs after the return, while no callback of the call holds its timer_info, does nothing. */
  lemma LateCallbackDoesNothing(s: Sys, t: nat)
    requires Reachable(s) && AtTimeoutLock(s, t) && HasEnded(s, CodeAt(s, t).call) && !Held(s, CodeAt(s, t).call)
    ensures DoRunTimeoutLock(s, t) == SetProg(s, s.threads[t].pc.fiber, Free)
  {
    CallbackLocksExactly(s, t);
  }

  /** One that has locked goes on if and only if no callback of the call has taken effect before. */
  lemma CallbackFiresExactly(s: Sys, t: nat)
    requires Reachable(s) && AtTimeoutCheck(s, t)
    ensures var TimeoutCheck(c, fd, ev) := CodeAt(s, t);
            DoRunTimeoutCheck(s, t)
              == SetProg(s, s.threads[t].pc.fiber, if TimerRan(c) in s.log then Free else TimeoutSet(c, fd, ev))
  {
    ReachableInv(s);
    ReachableTimely(s);
    assert CallOk(s, CodeAt(s, t).call);
    MarkIsExact(s, CodeAt(s, t).call);
  }
}
