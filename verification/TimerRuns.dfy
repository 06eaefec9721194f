/** Whole runs of a timer manager: what is handed out, how often, and when. */
module TimerRuns {
  import opened Counting
  import opened Tasks
  import opened Timers
  import opened TimerProofs

  datatype Act =
    | DoAdd(addr: nat, ms: nat, cb: Option<nat>, recurring: bool, now: nat)
    | DoCancel(a: nat)
    | DoRefresh(a: nat, now: nat)
    | DoReset(a: nat, ms: nat, fromNow: bool, now: nat)
    | DoExpire(now: nat, probe: nat)

  /** `deadline` is the timer's m_next when it was handed out. */
  datatype Event = Handed(addr: nat, at: nat, deadline: nat, rollover: bool) | Cancelled(addr: nat)

  datatype Sys = Sys(s: State, log: seq<Event>)

  predicate Can(y: Sys, act: Act)
  {
    Ok(y.s) &&
    match act
    case DoAdd(addr, _, _, _, _) => addr !in y.s.heap
    case DoCancel(a) => a in y.s.heap
    case DoRefresh(a, _) => a in y.s.heap
    case DoReset(a, _, _, _) => a in y.s.heap
    case DoExpire(_, _) => true
  }

  function HandedEvents(s: State, handed: seq<nat>, now: nat): seq<Event>
    requires InHeap(s.heap, handed)
  {
    seq(|handed|, i requires 0 <= i < |handed| => Handed(handed[i], now, s.heap[handed[i]].next,
        Rollover(s.previous, now)))
  }

  function Do(y: Sys, act: Act): Sys
    requires Can(y, act)
  {
    match act
    case DoAdd(addr, ms, cb, recurring, now) => y.(s := AddTimer(y.s, addr, ms, cb, recurring, now))
    case DoCancel(a) =>
      var r := Cancel(y.s, a);
      if r.Yes? then Sys(r.s, y.log + [Cancelled(a)]) else y
    case DoRefresh(a, now) => Settled(y, Refresh(y.s, a, now))
    case DoReset(a, ms, fromNow, now) => Settled(y, Reset(y.s, a, ms, fromNow, now))
    case DoExpire(now, probe) =>
      var (s', handed) := ListExpire(y.s, now, probe);
      Sys(s', y.log + HandedEvents(y.s, handed, now))
  }

  function Settled(y: Sys, r: Result): Sys
  {
    if r.BadErase? then y else y.(s := r.s)
  }

  predicate ValidRun(y: Sys, run: seq<Act>)
    decreases |run|
  {
    run == [] || (Can(y, run[0]) && ValidRun(Do(y, run[0]), run[1..]))
  }

  function After(y: Sys, run: seq<Act>): Sys
    requires ValidRun(y, run)
    decreases |run|
  {
    if run == [] then y else After(Do(y, run[0]), run[1..])
  }

  function Initial(start: nat): Sys { Sys(State(map[], [], start), []) }

  // ----- the invariant

  function HandedTo(a: nat): Event -> nat { (e: Event) => if e.Handed? && e.addr == a then 1 else 0 }

  /** A one-shot timer has been handed out, or is still in the set, or neither; not both, nor twice. */
  ghost predicate ShotOk(y: Sys, a: nat)
  {
    && (a !in y.s.heap ==> Sum(y.log, HandedTo(a)) == 0)
    && (a in y.s.heap && !y.s.heap[a].recurring ==> Sum(y.log, HandedTo(a)) + (if a in y.s.order then 1 else 0) <= 1)
  }

  ghost predicate CancelOk(y: Sys, a: nat)
  {
    Cancelled(a) in y.log ==> a in y.s.heap && y.s.heap[a].cb.None? && a !in y.s.order
  }

  /** Nothing is handed out early or after its cancellation. */
  ghost predicate LogOk(log: seq<Event>)
  {
    && (forall j :: 0 <= j < |log| && log[j].Handed? && !log[j].rollover ==> log[j].deadline <= log[j].at)
    && (forall i, j :: 0 <= i < j < |log| && log[i].Cancelled? && log[j].Handed? ==> log[i].addr != log[j].addr)
  }

  ghost predicate RunInv(y: Sys)
  {
    Inv(y.s) && LogOk(y.log) && (forall a: nat :: ShotOk(y, a)) && (forall a: nat :: CancelOk(y, a))
  }

  // ----- every operation keeps it

  lemma {:induction false} HandedCount(s: State, handed: seq<nat>, now: nat, a: nat)
    requires InHeap(s.heap, handed) && Distinct(handed)
    ensures Sum(HandedEvents(s, handed, now), HandedTo(a)) == if a in handed then 1 else 0
    decreases |handed|
  {
    if handed != [] {
      var ev := HandedEvents(s, handed, now);
      assert ev[1..] == HandedEvents(s, handed[1..], now);
      HandedCount(s, handed[1..], now, a);
      assert handed == [handed[0]] + handed[1..];
    }
  }

  lemma AddKeeps(y: Sys, act: Act)
    requires RunInv(y) && Can(y, act) && act.DoAdd?
    ensures RunInv(Do(y, act))
  {
    AddTimerKeeps(y.s, act.addr, act.ms, act.cb, act.recurring, act.now);
    forall a: nat ensures ShotOk(Do(y, act), a) && CancelOk(Do(y, act), a) {
      assert ShotOk(y, a) && CancelOk(y, a);
    }
  }

  lemma CancelStepKeeps(y: Sys, act: Act)
    requires RunInv(y) && Can(y, act) && act.DoCancel?
    ensures RunInv(Do(y, act))
  {
    CancelKeeps(y.s, act.a);
    forall a: nat ensures ShotOk(Do(y, act), a) && CancelOk(Do(y, act), a) {
      assert ShotOk(y, a) && CancelOk(y, a);
      SumSnoc(y.log, Cancelled(act.a), HandedTo(a));
    }
  }

  /** A change of one live timer's deadline and period. */
  lemma RekeyedKeeps(y: Sys, s': State, a: nat)
    requires RunInv(y) && Inv(s') && a in y.s.heap && a in s'.heap
    requires s'.heap == y.s.heap[a := s'.heap[a]]
    requires s'.heap[a].cb == y.s.heap[a].cb && s'.heap[a].recurring == y.s.heap[a].recurring
    requires forall x :: x in s'.order <==> x in y.s.order
    ensures RunInv(y.(s := s'))
  {
    forall x: nat ensures ShotOk(y.(s := s'), x) && CancelOk(y.(s := s'), x) {
      assert ShotOk(y, x) && CancelOk(y, x);
    }
  }

  lemma RefreshStepKeeps(y: Sys, a: nat, now: nat)
    requires RunInv(y) && a in y.s.heap
    ensures RunInv(Settled(y, Refresh(y.s, a, now)))
  {
    RefreshKeeps(y.s, a, now);
    if y.s.heap[a].cb.Some? {
      RekeyedKeeps(y, Refresh(y.s, a, now).s, a);
    }
  }

  lemma ResetStepKeeps(y: Sys, a: nat, ms: nat, fromNow: bool, now: nat)
    requires RunInv(y) && a in y.s.heap
    ensures RunInv(Settled(y, Reset(y.s, a, ms, fromNow, now)))
  {
    ResetKeeps(y.s, a, ms, fromNow, now);
    if y.s.heap[a].cb.Some? && (ms != y.s.heap[a].ms || fromNow) {
      RekeyedKeeps(y, Reset(y.s, a, ms, fromNow, now).s, a);
    }
  }

  lemma ExpireKeepsShots(y: Sys, now: nat, probe: nat, a: nat)
    requires RunInv(y)
    ensures var (s', handed) := ListExpire(y.s, now, probe);
            var y' := Sys(s', y.log + HandedEvents(y.s, handed, now));
            ShotOk(y', a) && CancelOk(y', a)
  {
    var (s', handed) := ListExpire(y.s, now, probe);
    var ev := HandedEvents(y.s, handed, now);
    assert ShotOk(y, a) && CancelOk(y, a);
    ExpireHandsOutDue(y.s, now, probe);
    if a in y.s.heap {
      ExpireOne(y.s, now, probe, a);
    }
    ExpireIsRearm(y.s, now, probe);
    PrefixesAreDistinct(y.s, Due(y.s, now));
    SumAppend(y.log, ev, HandedTo(a));
    HandedCount(y.s, handed, now, a);
  }

  lemma ExpireKeepsLog(y: Sys, now: nat, probe: nat)
    requires RunInv(y)
    ensures LogOk(y.log + HandedEvents(y.s, ListExpire(y.s, now, probe).1, now))
  {
    var handed := ListExpire(y.s, now, probe).1;
    var ev := HandedEvents(y.s, handed, now);
    var log := y.log + ev;
    ExpireHandsOutDue(y.s, now, probe);
    forall j | |y.log| <= j < |log| ensures log[j].Handed? && log[j].addr in handed
        && (log[j].rollover || log[j].deadline <= log[j].at) {
      assert log[j] == ev[j - |y.log|];
      assert handed[j - |y.log|] in handed;
    }
    forall i, j | 0 <= i < j < |log| && log[i].Cancelled? && log[j].Handed? ensures log[i].addr != log[j].addr {
      if j >= |y.log| {
        assert log[i] == y.log[i];
        assert CancelOk(y, log[i].addr);
      }
    }
  }

  lemma ExpireStepKeeps(y: Sys, act: Act)
    requires RunInv(y) && Can(y, act) && act.DoExpire?
    ensures RunInv(Do(y, act))
  {
    ExpireKeeps(y.s, act.now, act.probe);
    ExpireKeepsLog(y, act.now, act.probe);
    forall a: nat ensures ShotOk(Do(y, act), a) && CancelOk(Do(y, act), a) {
      ExpireKeepsShots(y, act.now, act.probe, a);
    }
  }

  lemma StepKeeps(y: Sys, act: Act)
    requires RunInv(y) && Can(y, act)
    ensures RunInv(Do(y, act))
  {
    match act
    case DoAdd(_, _, _, _, _) => AddKeeps(y, act);
    case DoCancel(_) => CancelStepKeeps(y, act);
    case DoRefresh(a, now) => RefreshStepKeeps(y, a, now);
    case DoReset(a, ms, fromNow, now) => ResetStepKeeps(y, a, ms, fromNow, now);
    case DoExpire(_, _) => ExpireStepKeeps(y, act);
  }

  lemma {:induction false} RunKeeps(y: Sys, run: seq<Act>)
    requires RunInv(y) && ValidRun(y, run)
    ensures RunInv(After(y, run))
    decreases |run|
  {
    if run != [] {
      StepKeeps(y, run[0]);
      RunKeeps(Do(y, run[0]), run[1..]);
    }
  }

  // ----- what is logged

  /** Every hand-out is logged with the time and the deadline it had, and nothing else is. */
  lemma ExpireIsLogged(y: Sys, now: nat, probe: nat)
    requires Can(y, DoExpire(now, probe))
    ensures var log, handed := Do(y, DoExpire(now, probe)).log, ListExpire(y.s, now, probe).1;
            && |log| == |y.log| + |handed| && log[..|y.log|] == y.log
            && (forall i :: 0 <= i < |handed| ==>
                  log[|y.log| + i] == Handed(handed[i], now, y.s.heap[handed[i]].next, Rollover(y.s.previous, now)))
  {
  }

  /** A cancellation is logged if and only if the timer still had its callback. */
  lemma CancelIsLogged(y: Sys, a: nat)
    requires RunInv(y) && a in y.s.heap
    ensures Do(y, DoCancel(a)).log == if y.s.heap[a].cb.Some? then y.log + [Cancelled(a)] else y.log
  {
    CancelKeeps(y.s, a);
  }

  // ----- a timer is not handed out before its deadline

  /** Until `until` the clock does not go back by more than it may, and nobody gives timer `a` a new deadline. */
  predicate QuietFor(y: Sys, run: seq<Act>, a: nat, until: nat)
    requires ValidRun(y, run)
    decreases |run|
  {
    run == [] ||
    (&& (run[0].DoExpire? ==> run[0].now < until && !Rollover(y.s.previous, run[0].now))
     && (run[0].DoRefresh? || run[0].DoReset? ==> run[0].a != a)
     && QuietFor(Do(y, run[0]), run[1..], a, until))
  }

  lemma QuietStep(y: Sys, act: Act, a: nat)
    requires RunInv(y) && Can(y, act) && a in y.s.heap
    requires act.DoExpire? ==> act.now < y.s.heap[a].next && !Rollover(y.s.previous, act.now)
    requires act.DoRefresh? || act.DoReset? ==> act.a != a
    ensures a in Do(y, act).s.heap && Do(y, act).s.heap[a].next == y.s.heap[a].next
    ensures Sum(Do(y, act).log, HandedTo(a)) == Sum(y.log, HandedTo(a))
  {
    match act
    case DoAdd(addr, ms, cb, recurring, now) =>
    case DoCancel(x) =>
      CancelKeeps(y.s, x);
      SumSnoc(y.log, Cancelled(x), HandedTo(a));
    case DoRefresh(x, now) => RefreshKeeps(y.s, x, now);
    case DoReset(x, ms, fromNow, now) => ResetKeeps(y.s, x, ms, fromNow, now);
    case DoExpire(now, probe) =>
      var handed := ListExpire(y.s, now, probe).1;
      ExpireHandsOutDue(y.s, now, probe);
      ExpireOne(y.s, now, probe, a);
      PrefixesAreDistinct(y.s, Due(y.s, now));
      HandedCount(y.s, handed, now, a);
      SumAppend(y.log, HandedEvents(y.s, handed, now), HandedTo(a));
  }

  /** Whatever else happens, a timer is not handed out while the clock is before its deadline; so a recurring one
      that has been re-armed is not before its next. */
  lemma {:induction false} NotBeforeItsDeadline(y: Sys, run: seq<Act>, a: nat)
    requires RunInv(y) && ValidRun(y, run) && a in y.s.heap && QuietFor(y, run, a, y.s.heap[a].next)
    ensures Sum(After(y, run).log, HandedTo(a)) == Sum(y.log, HandedTo(a))
    decreases |run|
  {
    if run != [] {
      QuietStep(y, run[0], a);
      StepKeeps(y, run[0]);
      NotBeforeItsDeadline(Do(y, run[0]), run[1..], a);
    }
  }

  // ----- over every run

  /** The set stays strictly sorted, and a timer created with a callback is in it exactly while its
      callback is non-empty; so the unchecked erase in cancle always has a valid iterator. */
  lemma SetAndCallbacksAgree(start: nat, run: seq<Act>, a: nat)
    requires ValidRun(Initial(start), run) && a in After(Initial(start), run).s.heap
    ensures var s := After(Initial(start), run).s;
            && Sorted(s.heap, s.order)
            && (s.heap[a].hadCb ==> (a in s.order <==> s.heap[a].cb.Some?))
            && !Cancel(s, a).BadErase?
  {
    RunKeeps(Initial(start), run);
    CancelKeeps(After(Initial(start), run).s, a);
  }

  /** A one-shot timer is handed out at most once. */
  lemma OneShotHandedOnce(start: nat, run: seq<Act>, i: nat, j: nat)
    requires ValidRun(Initial(start), run)
    requires var y := After(Initial(start), run);
             && i < j < |y.log| && y.log[i].Handed? && y.log[j].Handed?
             && y.log[i].addr in y.s.heap && !y.s.heap[y.log[i].addr].recurring
    ensures var log := After(Initial(start), run).log;
            log[i].addr != log[j].addr
  {
    RunKeeps(Initial(start), run);
    var y := After(Initial(start), run);
    assert ShotOk(y, y.log[i].addr);
    SumTwo(y.log, i, j, HandedTo(y.log[i].addr));
  }

  /** Without a rollover nothing is handed out before its deadline, and with or without one nothing
      after its successful cancellation. */
  lemma NeverEarlyNorAfterCancel(start: nat, run: seq<Act>)
    requires ValidRun(Initial(start), run)
    ensures LogOk(After(Initial(start), run).log)
  {
    RunKeeps(Initial(start), run);
  }
}
