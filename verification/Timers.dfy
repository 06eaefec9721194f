/** The timer set: timers ordered by deadline and address, and the operations that arm, cancel,
    re-arm and expire them.  Clock readings are parameters; times are 64-bit. */
module Timers {
  import opened Tasks

  const U64: nat := 0x1_0000_0000_0000_0000
  const NO_TIMER: nat := U64 - 1          // ~0ull
  const ONE_HOUR: nat := 60 * 60 * 1000

  function Add64(a: nat, b: nat): nat { (a + b) % U64 }
  function Sub64(a: nat, b: nat): nat { (a - b) % U64 }

  /** `hadCb` records whether the timer was created with a callback. */
  datatype Timer = Timer(ms: nat, next: nat, cb: Option<nat>, recurring: bool, hadCb: bool)

  /** Timer objects by address, the ordered set of their addresses, and m_previousTime. */
  datatype State = State(heap: map<nat, Timer>, order: seq<nat>, previous: nat)

  // ----- Timer::Compare and the ordered set

  /** (deadline, address) compared lexicographically. */
  predicate KeyLess(n1: nat, a1: nat, n2: nat, a2: nat)
  {
    n1 < n2 || (n1 == n2 && a1 < a2)
  }

  /** Timer::Compare, null pointers included. */
  predicate Compare(h: map<nat, Timer>, lhs: Option<nat>, rhs: Option<nat>)
    requires lhs.Some? ==> lhs.value in h
    requires rhs.Some? ==> rhs.value in h
  {
    if lhs.None? && rhs.None? then false
    else if lhs.None? then true
    else if rhs.None? then false
    else if h[lhs.value].next < h[rhs.value].next then true
    else if h[rhs.value].next < h[lhs.value].next then false
    else lhs.value < rhs.value
  }

  predicate Less(h: map<nat, Timer>, a: nat, b: nat)
    requires a in h && b in h
  {
    Compare(h, Some(a), Some(b))
  }

  predicate InHeap(h: map<nat, Timer>, order: seq<nat>)
  {
    forall i :: 0 <= i < |order| ==> order[i] in h
  }

  /** What std::set maintains: strictly ascending under Compare. */
  predicate Sorted(h: map<nat, Timer>, order: seq<nat>)
  {
    InHeap(h, order) && forall i, j :: 0 <= i < j < |order| ==> Less(h, order[i], order[j])
  }

  /** std::set::lower_bound for a key: the first element not less than it. */
  function LowerBound(h: map<nat, Timer>, order: seq<nat>, next: nat, addr: nat): (i: nat)
    requires InHeap(h, order)
    ensures i <= |order|
    ensures forall j :: 0 <= j < i ==> KeyLess(h[order[j]].next, order[j], next, addr)
    ensures i < |order| ==> !KeyLess(h[order[i]].next, order[i], next, addr)
  {
    if order == [] || !KeyLess(h[order[0]].next, order[0], next, addr) then 0
    else 1 + LowerBound(h, order[1..], next, addr)
  }

  /** std::set::find; the length stands for end(). */
  function Find(h: map<nat, Timer>, order: seq<nat>, a: nat): (i: nat)
    requires InHeap(h, order) && a in h
    ensures i <= |order|
  {
    var i := LowerBound(h, order, h[a].next, a);
    if i < |order| && !Less(h, a, order[i]) then i else |order|
  }

  function Erase(order: seq<nat>, i: nat): seq<nat>
    requires i < |order|
  {
    order[..i] + order[i + 1..]
  }

  /** std::set::insert: nothing happens if an equivalent element is there. */
  function Insert(h: map<nat, Timer>, order: seq<nat>, a: nat): seq<nat>
    requires InHeap(h, order) && a in h
  {
    var i := LowerBound(h, order, h[a].next, a);
    if i < |order| && !Less(h, a, order[i]) then order else order[..i] + [a] + order[i..]
  }

  // ----- operations

  datatype Result = Yes(s: State) | No(s: State) | BadErase   // BadErase: erase(end())

  predicate Ok(s: State) { InHeap(s.heap, s.order) }

  function AddTimer(s: State, addr: nat, ms: nat, cb: Option<nat>, recurring: bool, now: nat): State
    requires Ok(s)
  {
    var h := s.heap[addr := Timer(ms, Add64(now, ms), cb, recurring, cb.Some?)];
    State(h, Insert(h, s.order, addr), s.previous)
  }

  /** Timer::cancle: the iterator is erased unchecked. */
  function Cancel(s: State, a: nat): Result
    requires Ok(s) && a in s.heap
  {
    if s.heap[a].cb.None? then No(s)
    else
      var h := s.heap[a := s.heap[a].(cb := None)];
      var i := Find(h, s.order, a);
      if i == |s.order| then BadErase else Yes(State(h, Erase(s.order, i), s.previous))
  }

  /** The common part of refresh and reset: out of the set, new key, into the set. */
  function Rekey(s: State, a: nat, i: nat, ms: nat, next: nat): State
    requires Ok(s) && a in s.heap && i < |s.order|
  {
    var h := s.heap[a := s.heap[a].(ms := ms, next := next)];
    var rest := Erase(s.order, i);
    assert InHeap(h, rest);
    State(h, Insert(h, rest, a), s.previous)
  }

  function Refresh(s: State, a: nat, now: nat): Result
    requires Ok(s) && a in s.heap
  {
    var t := s.heap[a];
    if t.cb.None? then No(s)
    else
      var i := Find(s.heap, s.order, a);
      if i == |s.order| then No(s) else Yes(Rekey(s, a, i, t.ms, Add64(now, t.ms)))
  }

  function Reset(s: State, a: nat, ms: nat, fromNow: bool, now: nat): Result
    requires Ok(s) && a in s.heap
  {
    var t := s.heap[a];
    if ms == t.ms && !fromNow then No(s)
    else if t.cb.None? then No(s)
    else
      var i := Find(s.heap, s.order, a);
      if i == |s.order| then No(s)
      else
        var start := if fromNow then now else Sub64(t.next, t.ms);
        Yes(Rekey(s, a, i, ms, Add64(start, ms)))
  }

  /** getNextTimer: milliseconds until the front timer is due. */
  function GetNextTimer(s: State, now: nat): nat
    requires Ok(s)
  {
    if s.order == [] then NO_TIMER
    else if now > s.heap[s.order[0]].next then 0
    else s.heap[s.order[0]].next - now
  }

  /** detectClockRollover; the subtraction is unsigned. */
  predicate Rollover(previous: nat, now: nat)
  {
    now < previous && now < Sub64(previous, ONE_HOUR)
  }

  /** Where the expired prefix ends: lower_bound of (now, probe), then past the equal deadlines.
      `probe` is the address of the temporary timer. */
  function SkipEqual(h: map<nat, Timer>, order: seq<nat>, i: nat, now: nat): (k: nat)
    requires InHeap(h, order) && i <= |order|
    ensures i <= k <= |order|
    ensures forall j :: i <= j < k ==> h[order[j]].next == now
    ensures k < |order| ==> h[order[k]].next != now
    decreases |order| - i
  {
    if i < |order| && h[order[i]].next == now then SkipEqual(h, order, i + 1, now) else i
  }

  function ExpiredEnd(s: State, now: nat, probe: nat): (k: nat)
    requires Ok(s)
    ensures k <= |s.order|
  {
    if Rollover(s.previous, now) then |s.order|
    else SkipEqual(s.heap, s.order, LowerBound(s.heap, s.order, now, probe), now)
  }

  /** What the loop over the expired timers does to one: re-armed if recurring, else its callback is
      dropped. */
  function Rearmed(t: Timer, now: nat): Timer
  {
    if t.recurring then t.(next := Add64(now, t.ms)) else t.(cb := None)
  }

  function Rearm(h: map<nat, Timer>, order: seq<nat>, expired: seq<nat>, now: nat): (r: (map<nat, Timer>, seq<nat>))
    requires InHeap(h, order) && InHeap(h, expired)
    ensures InHeap(r.0, r.1) && r.0.Keys == h.Keys
    decreases |expired|
  {
    if expired == [] then (h, order)
    else
      var a := expired[0];
      var h' := h[a := Rearmed(h[a], now)];
      Rearm(h', if h[a].recurring then Insert(h', order, a) else order, expired[1..], now)
  }

  /** The callbacks collected by that loop. */
  function Callbacks(h: map<nat, Timer>, expired: seq<nat>): seq<Option<nat>>
    requires InHeap(h, expired)
  {
    seq(|expired|, i requires 0 <= i < |expired| => h[expired[i]].cb)
  }

  /** listExpireCB: the new state and the addresses of the timers whose callbacks are handed out. */
  function ListExpire(s: State, now: nat, probe: nat): (r: (State, seq<nat>))
    requires Ok(s)
    ensures InHeap(s.heap, r.1) && Ok(r.0)
  {
    if s.order == [] then (s, [])
    else
      var s1 := s.(previous := now);
      if !Rollover(s.previous, now) && s.heap[s.order[0]].next > now then (s1, [])
      else
        var k := ExpiredEnd(s, now, probe);
        var (h, order) := Rearm(s.heap, s.order[k..], s.order[..k], now);
        (State(h, order, now), s.order[..k])
  }

  // ----- the wait in IOManager::idle

  const MAX_TIMEOUT: int := 5000

  /** Conversion to a 32-bit int. */
  function ToInt32(n: nat): int
  {
    var m := n % 0x1_0000_0000;
    if m < 0x8000_0000 then m else m - 0x1_0000_0000
  }

  /** The timeout idle gives epoll_wait for a delay from getNextTimer; negative waits for ever. */
  function EpollTimeout(delay: nat): int
  {
    if delay != NO_TIMER then
      ToInt32(if ToInt32(delay) < MAX_TIMEOUT then delay else MAX_TIMEOUT)
    else MAX_TIMEOUT
  }
}
