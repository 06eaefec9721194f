/** The vocabulary of the fiber runtime: fiber states, callbacks, queued tasks. */
module Tasks {

  datatype Option<+T> = None | Some(value: T)

  /** Fiber::State. */
  datatype FiberState = Init | Hold | Exec | Term | Ready | Except {
    predicate Finished() { Term? || Except? }
  }

  /** IOManager::READ and IOManager::WRITE. */
  datatype EventType = Read | Write

  /** What a std::function<void()> given to the runtime does when called: schedule a fiber
      (the timer armed by `sleep`), time out one hooked call, or arbitrary client code. */
  datatype Closure =
    | WakeFiber(fiber: nat)
    | TimeoutCall(call: nat, fd: nat, ev: EventType)
    | Client(id: nat)

  /** A FiberAndThread holds a fiber or a callback. */
  datatype Task = FiberTask(fiber: nat) | CbTask(cb: Closure)

  const ANY_THREAD: int := -1

  /** A queue entry.  `tag` numbers the pushes, so that one entry can be followed through a run. */
  datatype Entry = Entry(task: Task, thread: int, tag: nat)

  /** Fiber identities are indices into the state table. */
  function StateOf(states: seq<FiberState>, f: nat): FiberState
  {
    if f < |states| then states[f] else Init
  }

  /** May thread `me` dequeue this entry? */
  predicate Eligible(e: Entry, me: int, states: seq<FiberState>)
  {
    && (e.thread == ANY_THREAD || e.thread == me)
    && !(e.task.FiberTask? && StateOf(states, e.task.fiber).Exec?)
  }

  /** The position the scan stops at; the queue's length when it finds nothing. */
  function FirstEligible(q: seq<Entry>, me: int, states: seq<FiberState>): (i: nat)
    ensures i <= |q|
    ensures i < |q| ==> Eligible(q[i], me, states)
    ensures forall j :: 0 <= j < i ==> !Eligible(q[j], me, states)
  {
    if q == [] || Eligible(q[0], me, states) then 0
    else 1 + FirstEligible(q[1..], me, states)
  }

  /** There is only one index with the three properties FirstEligible promises. */
  lemma FirstEligibleUnique(q: seq<Entry>, me: int, states: seq<FiberState>, i: nat)
    requires i <= |q|
    requires i < |q| ==> Eligible(q[i], me, states)
    requires forall j :: 0 <= j < i ==> !Eligible(q[j], me, states)
    ensures i == FirstEligible(q, me, states)
  {
    var k := FirstEligible(q, me, states);
    assert !(i < k) && !(k < i);
  }

  /** The scan stops at `i` if and only if every entry before is pinned to another thread or a fiber in EXEC, and
      the one at `i`, if there is one, is neither. */
  lemma FirstEligibleExactly(q: seq<Entry>, me: int, states: seq<FiberState>, i: nat)
    requires i <= |q|
    ensures i == FirstEligible(q, me, states) <==>
      && (forall j :: 0 <= j < i ==>
            || (q[j].thread != -1 && q[j].thread != me)
            || (q[j].task.FiberTask? && q[j].task.fiber < |states| && states[q[j].task.fiber].Exec?))
      && (i < |q| ==>
            && (q[i].thread == -1 || q[i].thread == me)
            && (q[i].task.FiberTask? && q[i].task.fiber < |states| ==> !states[q[i].task.fiber].Exec?))
  {
    var k := FirstEligible(q, me, states);
    if i < k {
      assert !Eligible(q[i], me, states);
    } else if k < i {
      assert Eligible(q[k], me, states);
    }
  }

  function Without(q: seq<Entry>, i: nat): seq<Entry>
    requires i < |q|
  {
    q[..i] + q[i + 1..]
  }

  /** `tasks` as queue entries numbered from `tag`, free to run on any thread. */
  function Entries(tasks: seq<Task>, tag: nat): (es: seq<Entry>)
    ensures |es| == |tasks|
    ensures forall i :: 0 <= i < |es| ==> es[i] == Entry(tasks[i], ANY_THREAD, tag + i)
  {
    seq(|tasks|, i requires 0 <= i < |tasks| => Entry(tasks[i], ANY_THREAD, tag + i))
  }
}

/** The shared state of Scheduler and the critical sections that update it. */
module SchedulerQueue {
  import opened Tasks

  class Scheduler {
    var fibers: seq<Entry>
    var active: nat
    var nextTag: nat

    constructor ()
      ensures fibers == [] && active == 0 && nextTag == 0
    {
      fibers, active, nextTag := [], 0, 0;
    }

    /** scheduleNoLock: an empty fiber or callback is not queued; the result says whether the
        queue was empty before the push. */
    method ScheduleNoLock(task: Option<Task>, thread: int) returns (needTickle: bool)
      modifies `fibers, `nextTag
      ensures needTickle == (old(fibers) == [])
      ensures task.None? ==> fibers == old(fibers) && nextTag == old(nextTag)
      ensures task.Some? ==> fibers == old(fibers) + [Entry(task.value, thread, old(nextTag))]
      ensures task.Some? ==> nextTag == old(nextTag) + 1
    {
      needTickle := |fibers| == 0;
      if task.Some? {
        fibers := fibers + [Entry(task.value, thread, nextTag)];
        nextTag := nextTag + 1;
      }
    }

    /** schedule(begin, end): every task is queued, in order, behind what was there. */
    method ScheduleAll(tasks: seq<Task>) returns (needTickle: bool)
      modifies `fibers, `nextTag
      ensures fibers == old(fibers) + Entries(tasks, old(nextTag))
      ensures nextTag == old(nextTag) + |tasks|
      ensures needTickle == (old(fibers) == [] && tasks != [])
    {
      needTickle := false;
      var i := 0;
      while i < |tasks|
        invariant i <= |tasks|
        invariant fibers == old(fibers) + Entries(tasks[..i], old(nextTag))
        invariant nextTag == old(nextTag) + i
        invariant needTickle == (old(fibers) == [] && i > 0)
      {
        var wasEmpty := ScheduleNoLock(Some(tasks[i]), ANY_THREAD);
        needTickle := wasEmpty || needTickle;
        assert Entries(tasks[..i + 1], old(nextTag))
            == Entries(tasks[..i], old(nextTag)) + [Entry(tasks[i], ANY_THREAD, old(nextTag) + i)];
        i := i + 1;
      }
      assert tasks[..i] == tasks;
    }

    /** The scan at the top of `run`: the earliest eligible entry leaves the queue, the others keep
        their order, and the thread is counted active exactly when it took something.  `tickle`
        reports whether an entry was taken or one pinned to another thread was passed over. */
    method Scan(me: int, states: seq<FiberState>) returns (taken: Option<Entry>, tickle: bool)
      modifies `fibers, `active
      ensures var i := FirstEligible(old(fibers), me, states);
              if i < |old(fibers)| then
                && taken == Some(old(fibers)[i])
                && fibers == Without(old(fibers), i)
                && active == old(active) + 1
              else
                taken.None? && fibers == old(fibers) && active == old(active)
      ensures taken.None? ==> forall j :: 0 <= j < |old(fibers)| ==>
        var e := old(fibers)[j];
        || (e.thread != -1 && e.thread != me)
        || (e.task.FiberTask? && e.task.fiber < |states| && states[e.task.fiber].Exec?)
      ensures taken.Some? ==> taken.value.thread == -1 || taken.value.thread == me
      ensures taken.Some? && taken.value.task.FiberTask? && taken.value.task.fiber < |states| ==>
        !states[taken.value.task.fiber].Exec?
      ensures taken.Some? ==>
        exists i ::
          && 0 <= i < |old(fibers)| && taken.value == old(fibers)[i]
          && fibers == old(fibers)[..i] + old(fibers)[i + 1..]
          && (forall j :: 0 <= j < i ==>
                var e := old(fibers)[j];
                || (e.thread != -1 && e.thread != me)
                || (e.task.FiberTask? && e.task.fiber < |states| && states[e.task.fiber].Exec?))
      ensures tickle <==> taken.Some? || exists e :: e in old(fibers) && e.thread != ANY_THREAD && e.thread != me
    {
      taken, tickle := None, false;
      var i := 0;
      while i < |fibers|
        invariant i <= |fibers|
        invariant fibers == old(fibers) && active == old(active) && taken.None?
        invariant forall j :: 0 <= j < i ==> !Eligible(fibers[j], me, states)
        invariant tickle <==> exists j :: 0 <= j < i && fibers[j].thread != ANY_THREAD && fibers[j].thread != me
      {
        var e := fibers[i];
        if e.thread != ANY_THREAD && e.thread != me {
          i := i + 1;
          tickle := true;
        } else if e.task.FiberTask? && StateOf(states, e.task.fiber).Exec? {
          i := i + 1;
        } else {
          FirstEligibleUnique(fibers, me, states, i);
          taken := Some(e);
          tickle := true;
          fibers := fibers[..i] + fibers[i + 1..];
          active := active + 1;
          return;
        }
      }
      FirstEligibleUnique(fibers, me, states, i);
    }
  }
}
