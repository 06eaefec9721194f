/** Runs from one state to another, and the short runs the counterexamples are made of. */
module WakeupScenarios {
  import opened Tasks
  import opened FdEvents
  import opened Wakeup
  import opened WakeupTheorems

  // ----- runs

  /** Some run leads from `s` to `s'`. */
  ghost predicate Leads(s: Sys, s': Sys)
  {
    exists run: seq<Action> :: ValidRun(s, run) && After(s, run) == s'
  }

  lemma LeadsNowhere(s: Sys)
    ensures Leads(s, s)
  {
    assert ValidRun(s, []) && After(s, []) == s;
  }

  lemma RunCons(s: Sys, a: Action, run: seq<Action>)
    requires Can(s, a) && ValidRun(Do(s, a), run)
    ensures ValidRun(s, [a] + run) && After(s, [a] + run) == After(Do(s, a), run)
  {
    assert ([a] + run)[1..] == run;
  }

  lemma HeadAndRest(a: seq<Action>, b: seq<Action>)
    requires a != []
    ensures a + b == [a[0]] + (a[1..] + b)
  {
  }

  lemma {:induction false} RunConcat(s: Sys, a: seq<Action>, b: seq<Action>)
    requires ValidRun(s, a) && ValidRun(After(s, a), b)
    ensures ValidRun(s, a + b) && After(s, a + b) == After(After(s, a), b)
    decreases |a|
  {
    if a == [] {
      assert a + b == b;
    } else {
      RunConcat(Do(s, a[0]), a[1..], b);
      RunCons(s, a[0], a[1..] + b);
      HeadAndRest(a, b);
    }
  }

  lemma LeadsOn(s: Sys, s1: Sys, s2: Sys)
    requires Leads(s, s1) && Leads(s1, s2)
    ensures Leads(s, s2)
  {
    var a :| ValidRun(s, a) && After(s, a) == s1;
    var b :| ValidRun(s1, b) && After(s1, b) == s2;
    RunConcat(s, a, b);
  }

  lemma OneStep(s: Sys, a: Action)
    requires Can(s, a)
    ensures Leads(s, Do(s, a))
  {
    LeadsNowhere(Do(s, a));
    assert ValidRun(Do(s, a), []) && After(Do(s, a), []) == Do(s, a);
    RunCons(s, a, []);
  }

  /** One more step. */
  lemma Then(s: Sys, s1: Sys, a: Action)
    requires Leads(s, s1) && Can(s1, a)
    ensures Leads(s, Do(s1, a))
  {
    OneStep(s1, a);
    LeadsOn(s, s1, Do(s1, a));
  }

  lemma ReachableOn(s: Sys, s': Sys)
    requires Reachable(s) && Leads(s, s')
    ensures Reachable(s')
  {
    var n: nat, run :| ValidRun(InitialSys(n), run) && After(InitialSys(n), run) == s;
    assert Leads(InitialSys(n), s);
    LeadsOn(InitialSys(n), s, s');
  }

  lemma ReachableStep(s: Sys, a: Action)
    requires Reachable(s) && Can(s, a)
    ensures Reachable(Do(s, a))
  {
    OneStep(s, a);
    ReachableOn(s, Do(s, a));
  }

  lemma InitialReachable(n: nat)
    ensures Reachable(InitialSys(n))
  {
    assert ValidRun(InitialSys(n), []) && After(InitialSys(n), []) == InitialSys(n);
  }

  // ----- small scenes

  /** Nothing in the queue for thread `t` to take: it goes to its idle fiber. */
  lemma GoIdle(s: Sys, t: nat) returns (s': Sys)
    requires AtScan(s, t) && s.queue == [] && !s.threads[t].idleOver
    ensures Leads(s, s') && s' == SetPc(s, t, Idle([]))
  {
    OneStep(s, Loop(t, Scan));
    s' := Do(s, Loop(t, Scan));
  }

  lemma TakeOnly(s: Sys, t: nat) returns (s': Sys)
    requires AtScan(s, t) && |s.queue| == 1 && Eligible(s.queue[0], t, s.states)
    ensures Leads(s, s') && s' == SetPc(s.(queue := [], active := s.active + 1), t, Picked(s.queue[0]))
  {
    OneStep(s, Loop(t, Scan));
    s' := Do(s, Loop(t, Scan));
  }

  /** From a state with nothing in it, a new fiber is spawned and runs on thread `t`. */
  lemma StartFiber(s: Sys, t: nat) returns (s': Sys)
    requires s.states == [] && s.progs == [] && s.queue == []
    requires t < |s.threads| && s.threads[t] == Thread(Scanning, None, false)
    ensures Leads(s, s')
    ensures var e := Entry(FiberTask(0), ANY_THREAD, s.nextTag);
            s' == SetPc(s, t, Running(0, false, e)).(states := [Exec], progs := [Free], nextTag := s.nextTag + 1,
                active := s.active + 1)
  {
    OneStep(s, Outside(Spawn(ANY_THREAD)));
    var s1 := Do(s, Outside(Spawn(ANY_THREAD)));
    var s2 := TakeOnly(s1, t);
    LeadsOn(s, s1, s2);
    Then(s, s2, Loop(t, Switch));
    s' := Do(s2, Loop(t, Switch));
  }

  /** A state with one fiber running on thread 0 and every other thread scanning. */
  lemma OneFiberRunning(n: nat, stop: bool) returns (s: Sys)
    requires n > 0
    ensures Reachable(s) && |s.threads| == n && s.stop == stop
    ensures s.states == [Exec] && s.progs == [Free] && s.queue == [] && s.active == 1
    ensures s.io == InitialIo() && s.timers == [] && s.calls == [] && s.log == []
    ensures s.threads[0].pc.Running? && s.threads[0].pc.fiber == 0 && !s.threads[0].pc.viaCb
      && s.threads[0].cbFiber.None?
    ensures forall t :: 0 < t < n ==> s.threads[t] == Thread(Scanning, None, false)
  {
    InitialReachable(n);
    var s0 := InitialSys(n);
    if stop {
      ReachableStep(s0, Outside(RequestStop));
      s0 := Do(s0, Outside(RequestStop));
    }
    s := StartFiber(s0, 0);
    ReachableOn(s0, s);
  }

  /** The fiber on thread `t` yields and its thread settles it. */
  lemma Suspend(s: Sys, t: nat) returns (s': Sys)
    requires Runs(s, t) && CodeAt(s, t).Waiting() && s.threads[t].pc.fiber < |s.states|
      && s.states[s.threads[t].pc.fiber].Exec?
    ensures Leads(s, s')
    ensures var th, f := s.threads[t], s.threads[t].pc.fiber;
            s' == SetPc(s, t, Scanning).(states := s.states[f := FiberState.Hold], active := s.active - 1,
                                         log := s.log + [Consumed(th.pc.entry.tag)])
  {
    OneStep(s, Loop(t, YieldToHold));
    var s1 := Do(s, Loop(t, YieldToHold));
    Then(s, s1, Loop(t, CountDown));
    var s2 := Do(s1, Loop(t, CountDown));
    Then(s, s2, Loop(t, Settle));
    s' := Do(s2, Loop(t, Settle));
  }

  /** The only queued fiber is taken and resumed. */
  lemma Resume(s: Sys, t: nat, f: nat) returns (s': Sys)
    requires AtScan(s, t) && |s.queue| == 1 && s.queue[0].task == FiberTask(f) && s.queue[0].thread == ANY_THREAD
    requires f < |s.states| == |s.progs| && !s.states[f].Exec? && !s.states[f].Finished()
    ensures Leads(s, s')
    ensures s' == SetPc(s, t, Running(f, false, s.queue[0])).(
                    states := s.states[f := Exec], progs := s.progs[f := s.progs[f].Resumed()],
                    queue := [], active := s.active + 1)
  {
    var s1 := TakeOnly(s, t);
    Then(s, s1, Loop(t, Switch));
    s' := Do(s1, Loop(t, Switch));
  }
}
