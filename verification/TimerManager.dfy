/** TimerManager and Timer as they update their fields in place, against the operations of Timers.
    Timer objects live in `heap` under their address; `now` is the clock reading of the call. */
module TimerManager {
  import opened Tasks
  import opened Timers
  import opened TimerProofs

  class Manager {
    var heap: map<nat, Timer>
    var timers: seq<nat>
    var previousTime: nat

    ghost function Value(): State
      reads this
    {
      State(heap, timers, previousTime)
    }

    ghost predicate Valid()
      reads this
    {
      Inv(Value())
    }

    constructor (now: nat)
      ensures Valid() && Value() == State(map[], [], now)
    {
      heap, timers, previousTime := map[], [], now;
    }

    method AddTimer(addr: nat, ms: nat, cb: Option<nat>, recurring: bool, now: nat)
      requires Valid() && addr !in heap
      modifies this
      ensures Valid() && Value() == Timers.AddTimer(old(Value()), addr, ms, cb, recurring, now)
    {
      AddTimerKeeps(Value(), addr, ms, cb, recurring, now);
      heap := heap[addr := Timer(ms, Add64(now, ms), cb, recurring, cb.Some?)];
      timers := Insert(heap, timers, addr);
    }

    /** cancle erases without a check; Valid makes the iterator dereferenceable. */
    method Cancle(a: nat) returns (done: bool)
      requires Valid() && a in heap
      modifies this
      ensures Valid()
      ensures Timers.Cancel(old(Value()), a) == if done then Yes(Value()) else No(Value())
      ensures done <==> old(heap)[a].cb.Some?
    {
      CancelKeeps(Value(), a);
      done := heap[a].cb.Some?;
      if done {
        heap := heap[a := heap[a].(cb := None)];
        var i := Find(heap, timers, a);
        timers := Erase(timers, i);
      }
    }

    method Refresh(a: nat, now: nat) returns (done: bool)
      requires Valid() && a in heap
      modifies this
      ensures Valid()
      ensures Timers.Refresh(old(Value()), a, now) == if done then Yes(Value()) else No(Value())
    {
      RefreshKeeps(Value(), a, now);
      if heap[a].cb.None? {
        return false;
      }
      var i := Find(heap, timers, a);
      if i == |timers| {
        return false;
      }
      timers := Erase(timers, i);
      heap := heap[a := heap[a].(next := Add64(now, heap[a].ms))];
      timers := Insert(heap, timers, a);
      return true;
    }

    method Reset(a: nat, ms: nat, fromNow: bool, now: nat) returns (done: bool)
      requires Valid() && a in heap
      modifies this
      ensures Valid()
      ensures Timers.Reset(old(Value()), a, ms, fromNow, now) == if done then Yes(Value()) else No(Value())
    {
      ResetKeeps(Value(), a, ms, fromNow, now);
      if ms == heap[a].ms && !fromNow {
        return false;
      }
      if heap[a].cb.None? {
        return false;
      }
      var i := Find(heap, timers, a);
      if i == |timers| {
        return false;
      }
      timers := Erase(timers, i);
      var start := if fromNow then now else Sub64(heap[a].next, heap[a].ms);
      heap := heap[a := heap[a].(ms := ms, next := Add64(start, ms))];
      timers := Insert(heap, timers, a);
      return true;
    }

    method GetNextTimer(now: nat) returns (delay: nat)
      requires Valid()
      ensures delay == Timers.GetNextTimer(Value(), now)
      ensures timers == [] ==> delay == 0xFFFF_FFFF_FFFF_FFFF
      ensures timers != [] ==> delay == if now > heap[timers[0]].next then 0 else heap[timers[0]].next - now
    {
      if |timers| == 0 {
        return NO_TIMER;
      }
      var t := heap[timers[0]];
      if now > t.next {
        return 0;
      }
      return t.next - now;
    }

    method DetectClockRollover(now: nat) returns (rollover: bool)
      modifies `previousTime
      ensures rollover == Rollover(old(previousTime), now) && previousTime == now
      ensures old(previousTime) < U64 ==>
        (rollover <==> now + 3_600_000 < old(previousTime) || now < old(previousTime) < 3_600_000)
    {
      if previousTime < U64 {
        RolloverExactly(previousTime, now);
      }
      rollover := false;
      if now < previousTime && now < Sub64(previousTime, ONE_HOUR) {
        rollover := true;
      }
      previousTime := now;
    }

    /** Where the expired timers end: lower_bound, then past the timers due exactly now. */
    method FindExpiredEnd(rollover: bool, now: nat, probe: nat) returns (k: nat)
      requires Valid()
      ensures k <= |timers|
      ensures k == if rollover then |timers| else SkipEqual(heap, timers, LowerBound(heap, timers, now, probe), now)
    {
      k := if rollover then |timers| else LowerBound(heap, timers, now, probe);
      ghost var start := k;
      while k < |timers| && heap[timers[k]].next == now
        invariant start <= k <= |timers|
        invariant !rollover ==> SkipEqual(heap, timers, start, now) == SkipEqual(heap, timers, k, now)
        invariant rollover ==> k == |timers|
      {
        k := k + 1;
      }
    }

    method RearmOne(a: nat, now: nat)
      requires InHeap(heap, timers) && a in heap
      modifies `heap, `timers
      ensures heap == old(heap)[a := Rearmed(old(heap)[a], now)]
      ensures timers == if old(heap)[a].recurring then Insert(heap, old(timers), a) else old(timers)
    {
      if heap[a].recurring {
        heap := heap[a := heap[a].(next := Add64(now, heap[a].ms))];
        timers := Insert(heap, timers, a);
      } else {
        heap := heap[a := heap[a].(cb := None)];
      }
    }

    /** The loop over the expired timers, already out of the set. */
    method RearmExpired(expired: seq<nat>, now: nat) returns (cbs: seq<Option<nat>>)
      requires InHeap(heap, timers) && InHeap(heap, expired) && Distinct(expired)
      modifies `heap, `timers
      ensures (heap, timers) == Rearm(old(heap), old(timers), expired, now)
      ensures cbs == Callbacks(old(heap), expired)
    {
      cbs := [];
      var i := 0;
      while i < |expired|
        invariant i <= |expired| && InHeap(heap, timers) && InHeap(heap, expired)
        invariant Rearm(old(heap), old(timers), expired, now) == Rearm(heap, timers, expired[i..], now)
        invariant forall j :: i <= j < |expired| ==> heap[expired[j]] == old(heap)[expired[j]]
        invariant cbs == Callbacks(old(heap), expired[..i])
      {
        var a := expired[i];
        cbs := cbs + [heap[a].cb];
        RearmOne(a, now);
        assert expired[i..][0] == a && expired[i..][1..] == expired[i + 1..];
        assert Callbacks(old(heap), expired[..i + 1]) == Callbacks(old(heap), expired[..i]) + [old(heap)[a].cb];
        i := i + 1;
      }
      assert expired[..i] == expired && expired[i..] == [];
    }

    /** listExpireCB: the callbacks of the expired timers, in the order of the set. */
    method ListExpireCB(now: nat, probe: nat) returns (cbs: seq<Option<nat>>)
      requires Valid()
      modifies this
      ensures Valid()
      ensures Value() == ListExpire(old(Value()), now, probe).0
      ensures var handed := ListExpire(old(Value()), now, probe).1;
              |cbs| == |handed| && forall i :: 0 <= i < |cbs| ==> cbs[i] == old(heap)[handed[i]].cb
    {
      ExpireKeeps(Value(), now, probe);
      cbs := [];
      if |timers| == 0 {
        return;
      }
      var rollover := DetectClockRollover(now);
      if !rollover && heap[timers[0]].next > now {
        return;
      }
      var k := FindExpiredEnd(rollover, now, probe);
      var expired := timers[..k];
      PrefixesAreDistinct(old(Value()), k);
      timers := timers[k..];
      cbs := RearmExpired(expired, now);
    }
  }
}
