/** What the timer operations keep and what expiry hands out. */
module TimerProofs {
  import opened Tasks
  import opened Timers

  // ----- 64-bit times

  /** Sums and differences wrap around once. */
  lemma WrapsExactly(a: nat, b: nat)
    requires a < 0x1_0000_0000_0000_0000 && b < 0x1_0000_0000_0000_0000
    ensures Add64(a, b) == if a + b < 0x1_0000_0000_0000_0000 then a + b else a + b - 0x1_0000_0000_0000_0000
    ensures Sub64(a, b) == if a >= b then a - b else a - b + 0x1_0000_0000_0000_0000
  {
  }

  // ----- the ordered set

  /** Compare is a strict total order on the timers of a heap. */
  lemma CompareIsStrictTotalOrder(h: map<nat, Timer>, a: Option<nat>, b: Option<nat>, c: Option<nat>)
    requires a.Some? ==> a.value in h
    requires b.Some? ==> b.value in h
    requires c.Some? ==> c.value in h
    ensures !Compare(h, a, a)
    ensures a != b ==> (Compare(h, a, b) <==> !Compare(h, b, a))
    ensures Compare(h, a, b) && Compare(h, b, c) ==> Compare(h, a, c)
  {
  }

  /** Null comes first; then the earlier deadline; then the lower address. */
  lemma CompareExactly(h: map<nat, Timer>, a: Option<nat>, b: Option<nat>)
    requires a.Some? ==> a.value in h
    requires b.Some? ==> b.value in h
    ensures Compare(h, a, b) <==>
      b.Some? && (a.None? || h[a.value].next < h[b.value].next
                  || (h[a.value].next == h[b.value].next && a.value < b.value))
  {
  }

  predicate Distinct(xs: seq<nat>) { forall i, j :: 0 <= i < j < |xs| ==> xs[i] != xs[j] }

  /** In a sorted set find hits exactly the elements. */
  lemma FindHits(h: map<nat, Timer>, order: seq<nat>, a: nat)
    requires Sorted(h, order) && a in h
    ensures a in order ==> Find(h, order, a) < |order| && order[Find(h, order, a)] == a
    ensures a !in order ==> Find(h, order, a) == |order|
  {
    var i := LowerBound(h, order, h[a].next, a);
    if a in order {
      var k :| 0 <= k < |order| && order[k] == a;
      assert !(k < i);
      if i < k {
        assert Less(h, order[i], order[k]);
      }
    }
  }

  /** An element goes between the smaller ones and the greater ones. */
  lemma SpliceSorted(h: map<nat, Timer>, order: seq<nat>, i: nat, a: nat)
    requires Sorted(h, order) && a in h && i <= |order|
    requires forall j :: 0 <= j < i ==> Less(h, order[j], a)
    requires forall j :: i <= j < |order| ==> Less(h, a, order[j])
    ensures Sorted(h, order[..i] + [a] + order[i..])
  {
    var out := order[..i] + [a] + order[i..];
    assert forall j :: 0 <= j < |out| ==> out[j] == if j < i then order[j] else if j == i then a else order[j - 1];
  }

  lemma SpliceElements(order: seq<nat>, i: nat, a: nat)
    requires i <= |order|
    ensures forall x :: x in order[..i] + [a] + order[i..] <==> x in order || x == a
  {
    assert order == order[..i] + order[i..];
  }

  lemma InsertSplices(h: map<nat, Timer>, order: seq<nat>, a: nat) returns (i: nat)
    requires Sorted(h, order) && a in h && a !in order
    ensures i <= |order| && Insert(h, order, a) == order[..i] + [a] + order[i..]
    ensures forall j :: 0 <= j < i ==> Less(h, order[j], a)
    ensures forall j :: i <= j < |order| ==> Less(h, a, order[j])
  {
    i := LowerBound(h, order, h[a].next, a);
    if i < |order| {
      assert order[i] in order;
      forall j | i <= j < |order| ensures Less(h, a, order[j]) {
        assert j > i ==> Less(h, order[i], order[j]);
      }
    }
  }

  lemma InsertSorted(h: map<nat, Timer>, order: seq<nat>, a: nat)
    requires Sorted(h, order) && a in h && a !in order
    ensures Sorted(h, Insert(h, order, a))
    ensures forall x :: x in Insert(h, order, a) <==> x in order || x == a
  {
    var i := InsertSplices(h, order, a);
    SpliceSorted(h, order, i, a);
    SpliceElements(order, i, a);
  }

  lemma EraseSorted(h: map<nat, Timer>, order: seq<nat>, i: nat)
    requires Sorted(h, order) && i < |order|
    ensures Sorted(h, Erase(order, i)) && order[i] !in Erase(order, i)
    ensures forall x :: x in order <==> x in Erase(order, i) || x == order[i]
  {
    var out := Erase(order, i);
    forall k | 0 <= k < |out| ensures out[k] != order[i] {
      assert out[k] == if k < i then order[k] else order[k + 1];
      if k < i {
        assert Less(h, order[k], order[i]);
      } else {
        assert Less(h, order[i], order[k + 1]);
      }
    }
    forall x | x in order ensures x in out || x == order[i] {
      var k :| 0 <= k < |order| && order[k] == x;
      if k < i {
        assert out[k] == x;
      } else if k > i {
        assert out[k - 1] == x;
      }
    }
  }

  /** The key of a timer outside the set may change freely. */
  lemma OutsideKeyIsFree(h: map<nat, Timer>, order: seq<nat>, a: nat, t: Timer)
    requires Sorted(h, order) && (a !in order || (a in h && t.next == h[a].next))
    ensures Sorted(h[a := t], order)
  {
  }

  // ----- the invariant

  /** The set is sorted; a timer with a callback is in the set; and one in the set has its callback,
      if it was ever given one. */
  ghost predicate Inv(s: State)
  {
    && Sorted(s.heap, s.order)
    && (forall a :: a in s.heap && s.heap[a].cb.Some? ==> a in s.order)
    && (forall a :: a in s.order && s.heap[a].hadCb ==> s.heap[a].cb.Some?)
    && (forall a :: a in s.heap && s.heap[a].cb.Some? ==> s.heap[a].hadCb)
  }

  lemma AddTimerKeeps(s: State, addr: nat, ms: nat, cb: Option<nat>, recurring: bool, now: nat)
    requires Inv(s) && addr !in s.heap
    ensures var s' := AddTimer(s, addr, ms, cb, recurring, now);
            && Inv(s') && s'.heap == s.heap[addr := Timer(ms, Add64(now, ms), cb, recurring,
                                                          cb.Some?)]
            && (forall x :: x in s'.order <==> x in s.order || x == addr) && s'.previous == s.previous
  {
    NewTimerKeeps(s, addr, Timer(ms, Add64(now, ms), cb, recurring, cb.Some?));
  }

  /** One more timer, in the set, sorted: the callbacks still agree with the set. */
  lemma OneMoreTimer(s: State, addr: nat, t: Timer, order: seq<nat>)
    requires Inv(s) && addr !in s.heap && t.hadCb == t.cb.Some? && Sorted(s.heap[addr := t], order)
    requires forall x :: x in order <==> x in s.order || x == addr
    ensures Inv(State(s.heap[addr := t], order, s.previous))
  {
  }

  lemma NewTimerKeeps(s: State, addr: nat, t: Timer)
    requires Inv(s) && addr !in s.heap && t.hadCb == t.cb.Some?
    ensures var h := s.heap[addr := t];
            var order := Insert(h, s.order, addr);
            Inv(State(h, order, s.previous)) && forall x :: x in order <==> x in s.order || x == addr
  {
    var h := s.heap[addr := t];
    assert addr !in s.order;
    OutsideKeyIsFree(s.heap, s.order, addr, t);
    InsertSorted(h, s.order, addr);
    OneMoreTimer(s, addr, t, Insert(h, s.order, addr));
  }

  /** The unchecked erase always has an element to erase, and cancelling takes out exactly it. */
  lemma CancelKeeps(s: State, a: nat)
    requires Inv(s) && a in s.heap
    ensures var r := Cancel(s, a);
            && !r.BadErase?
            && (r.Yes? <==> s.heap[a].cb.Some?)
            && (r.No? ==> r.s == s)
            && (r.Yes? ==>
                  && Inv(r.s) && r.s.heap == s.heap[a := s.heap[a].(cb := None)]
                  && (forall x :: x in r.s.order <==> x in s.order && x != a) && r.s.previous == s.previous)
  {
    if s.heap[a].cb.Some? {
      var h := s.heap[a := s.heap[a].(cb := None)];
      OutsideKeyIsFree(s.heap, s.order, a, h[a]);
      FindHits(h, s.order, a);
      EraseSorted(h, s.order, Find(h, s.order, a));
    }
  }

  lemma RekeyKeeps(s: State, a: nat, i: nat, ms: nat, next: nat)
    requires Inv(s) && a in s.heap && i < |s.order| && s.order[i] == a
    ensures var s' := Rekey(s, a, i, ms, next);
            && Inv(s') && s'.heap == s.heap[a := s.heap[a].(ms := ms, next := next)]
            && (forall x :: x in s'.order <==> x in s.order) && s'.previous == s.previous
  {
    var h := s.heap[a := s.heap[a].(ms := ms, next := next)];
    EraseSorted(s.heap, s.order, i);
    OutsideKeyIsFree(s.heap, Erase(s.order, i), a, h[a]);
    InsertSorted(h, Erase(s.order, i), a);
  }

  /** What find hits is re-keyed. */
  lemma LiveIsRekeyed(s: State, a: nat, ms: nat, next: nat)
    requires Inv(s) && a in s.heap && s.heap[a].cb.Some?
    ensures var i := Find(s.heap, s.order, a);
            && i < |s.order|
            && var s' := Rekey(s, a, i, ms, next);
               && Inv(s') && s'.heap == s.heap[a := s.heap[a].(ms := ms, next := next)]
               && (forall x :: x in s'.order <==> x in s.order) && s'.previous == s.previous
  {
    FindHits(s.heap, s.order, a);
    RekeyKeeps(s, a, Find(s.heap, s.order, a), ms, next);
  }

  /** refresh re-arms from now exactly the timers that still have a callback. */
  lemma RefreshKeeps(s: State, a: nat, now: nat)
    requires Inv(s) && a in s.heap
    ensures var r := Refresh(s, a, now);
            && (if s.heap[a].cb.Some? then
                  var next := Add64(now, s.heap[a].ms);
                  && r.Yes? && Inv(r.s) && (forall x :: x in r.s.order <==> x in s.order)
                  && r.s.previous == s.previous && r.s.heap == s.heap[a := s.heap[a].(next := next)]
                else r == No(s))
  {
    if s.heap[a].cb.Some? {
      LiveIsRekeyed(s, a, s.heap[a].ms, Add64(now, s.heap[a].ms));
    }
  }

  /** reset gives a live timer its new period, counted from now or from when it was last armed. */
  lemma ResetKeeps(s: State, a: nat, ms: nat, fromNow: bool, now: nat)
    requires Inv(s) && a in s.heap
    ensures var r, t := Reset(s, a, ms, fromNow, now), s.heap[a];
            && (if t.cb.Some? && (ms != t.ms || fromNow) then
                  var start := if fromNow then now else Sub64(t.next, t.ms);
                  var next := Add64(start, ms);
                  && r.Yes? && Inv(r.s) && (forall x :: x in r.s.order <==> x in s.order)
                  && r.s.previous == s.previous && r.s.heap == s.heap[a := t.(ms := ms, next := next)]
                else r == No(s))
  {
    var t := s.heap[a];
    if t.cb.Some? && (ms != t.ms || fromNow) {
      LiveIsRekeyed(s, a, ms, Add64(if fromNow then now else Sub64(t.next, t.ms), ms));
    }
  }

  // ----- expiry

  lemma {:induction false} RearmEffect(h: map<nat, Timer>, order: seq<nat>, expired: seq<nat>, now: nat)
    requires Sorted(h, order) && InHeap(h, expired) && Distinct(expired)
    requires forall a :: a in expired ==> a !in order
    ensures var (h', order') := Rearm(h, order, expired, now);
            && Sorted(h', order') && h'.Keys == h.Keys
            && (forall a :: a in h ==> h'[a] == if a in expired then Rearmed(h[a], now) else h[a])
            && (forall a :: a in order' <==> a in order || (a in expired && h[a].recurring))
    decreases |expired|
  {
    if expired != [] {
      var a, rest := expired[0], expired[1..];
      assert a in expired && expired == [a] + rest;
      assert forall x :: x in expired <==> x == a || x in rest;
      var h1 := h[a := Rearmed(h[a], now)];
      OutsideKeyIsFree(h, order, a, h1[a]);
      if h[a].recurring {
        InsertSorted(h1, order, a);
      }
      RearmEffect(h1, if h[a].recurring then Insert(h1, order, a) else order, rest, now);
    }
  }

  lemma PrefixesAreDistinct(s: State, k: nat)
    requires Sorted(s.heap, s.order) && k <= |s.order|
    ensures Sorted(s.heap, s.order[k..]) && InHeap(s.heap, s.order[..k]) && Distinct(s.order[..k])
    ensures forall a :: a in s.order[..k] ==> a !in s.order[k..]
    ensures forall a :: a in s.order <==> a in s.order[..k] || a in s.order[k..]
  {
    assert s.order == s.order[..k] + s.order[k..];
    forall i, j | 0 <= i < j < |s.order| ensures s.order[i] != s.order[j] {
      assert Less(s.heap, s.order[i], s.order[j]);
    }
  }

  /** The expired prefix is exactly the timers due at `now`, whatever the temporary's address. */
  lemma ExpiredEndExact(s: State, now: nat, probe: nat)
    requires Sorted(s.heap, s.order) && !Rollover(s.previous, now)
    ensures var k := ExpiredEnd(s, now, probe);
            && (forall i :: 0 <= i < k ==> s.heap[s.order[i]].next <= now)
            && (forall i :: k <= i < |s.order| ==> s.heap[s.order[i]].next > now)
  {
    var k := ExpiredEnd(s, now, probe);
    if k < |s.order| {
      forall i | k <= i < |s.order| ensures s.heap[s.order[i]].next > now {
        assert i > k ==> Less(s.heap, s.order[k], s.order[i]);
        var lb := LowerBound(s.heap, s.order, now, probe);
        assert lb < k ==> Less(s.heap, s.order[lb], s.order[k]);
      }
    }
  }

  /** A rollover is seen if and only if the clock went back by more than an hour, or went back at all before
      its first hour was over, when the unsigned subtraction wraps around. */
  lemma RolloverExactly(previous: nat, now: nat)
    requires previous < U64
    ensures Rollover(previous, now) <==> now + 3_600_000 < previous || now < previous < 3_600_000
  {
    if previous >= ONE_HOUR {
      assert Sub64(previous, ONE_HOUR) == previous - ONE_HOUR;
    } else {
      assert Sub64(previous, ONE_HOUR) == previous - ONE_HOUR + U64;
    }
  }

  /** The prefix of `order` that listExpireCB hands out. */
  function Due(s: State, now: nat): nat
    requires Ok(s)
  {
    if Rollover(s.previous, now) then |s.order| else DueFrom(s, now, 0)
  }

  function DueFrom(s: State, now: nat, i: nat): (k: nat)
    requires Ok(s) && i <= |s.order|
    ensures i <= k <= |s.order|
    ensures forall j :: i <= j < k ==> s.heap[s.order[j]].next <= now
    ensures k < |s.order| ==> s.heap[s.order[k]].next > now
    decreases |s.order| - i
  {
    if i < |s.order| && s.heap[s.order[i]].next <= now then DueFrom(s, now, i + 1) else i
  }

  /** What a timer becomes when listExpireCB runs at `now`. */
  function AfterExpiry(s: State, now: nat, a: nat): Timer
    requires Ok(s) && a in s.heap
  {
    if a in s.order[..Due(s, now)] then Rearmed(s.heap[a], now) else s.heap[a]
  }

  /** Whichever way listExpireCB returns, it has re-armed exactly the due prefix. */
  lemma ListExpireIsRearm(s: State, now: nat, probe: nat)
    requires Sorted(s.heap, s.order) && s.order != []
    ensures var d := Due(s, now);
            && InHeap(s.heap, s.order[..d]) && InHeap(s.heap, s.order[d..])
            && var (h, order) := Rearm(s.heap, s.order[d..], s.order[..d], now);
               ListExpire(s, now, probe) == (State(h, order, now), s.order[..d])
  {
    var d := Due(s, now);
    PrefixesAreDistinct(s, d);
    if Rollover(s.previous, now) {
    } else {
      ExpiredEndExact(s, now, probe);
      assert ExpiredEnd(s, now, probe) == d;
      if d == 0 {
        assert s.order[..0] == [] && s.order[0..] == s.order;
      }
    }
  }

  /** listExpireCB hands out, from the front of the set, exactly the timers due (all of them on a clock
      rollover). */
  lemma ExpireHandsOutDue(s: State, now: nat, probe: nat)
    requires Inv(s)
    ensures var handed := ListExpire(s, now, probe).1;
            && handed == s.order[..Due(s, now)]
            && (forall a :: a in handed <==> a in s.order && (Rollover(s.previous, now) || s.heap[a].next <= now))
  {
    DueExact(s, now);
    if s.order != [] {
      ListExpireIsRearm(s, now, probe);
    }
  }

  /** That is by deadline, and by address among equal deadlines. */
  lemma HandedOutInOrder(s: State, now: nat, probe: nat, i: nat, j: nat)
    requires Inv(s) && i < j < |ListExpire(s, now, probe).1|
    ensures var handed := ListExpire(s, now, probe).1;
            || s.heap[handed[i]].next < s.heap[handed[j]].next
            || (s.heap[handed[i]].next == s.heap[handed[j]].next && handed[i] < handed[j])
  {
    ExpireHandsOutDue(s, now, probe);
    assert Less(s.heap, s.order[i], s.order[j]);
  }

  /** Whichever way listExpireCB returns. */
  lemma ExpireIsRearm(s: State, now: nat, probe: nat)
    requires Inv(s)
    ensures var s' := ListExpire(s, now, probe).0;
            && s'.heap.Keys == s.heap.Keys
            && (forall a :: a in s.heap ==> s'.heap[a] == AfterExpiry(s, now, a))
            && (forall a :: a in s'.order <==> a in s.order && (a in s.order[..Due(s, now)] ==> s.heap[a].recurring))
            && Sorted(s'.heap, s'.order)
            && s'.previous == if s.order == [] then s.previous else now
  {
    var d := Due(s, now);
    PrefixesAreDistinct(s, d);
    if s.order != [] {
      ListExpireIsRearm(s, now, probe);
      RearmEffect(s.heap, s.order[d..], s.order[..d], now);
    }
  }

  /** What becomes of one timer: a due recurring one is re-armed at now plus its period, a due one-shot loses its
      callback, any other stays as it was. */
  lemma ExpireOne(s: State, now: nat, probe: nat, a: nat)
    requires Inv(s) && a in s.heap
    ensures var s' := ListExpire(s, now, probe).0;
            var due := a in s.order && (Rollover(s.previous, now) || s.heap[a].next <= now);
            && a in s'.heap
            && (due && s.heap[a].recurring ==>
                  s'.heap[a] == s.heap[a].(next := Add64(now, s.heap[a].ms)))
            && (due && !s.heap[a].recurring ==> s'.heap[a] == s.heap[a].(cb := None))
            && (!due ==> s'.heap[a] == s.heap[a])
            && (a in s'.order <==> a in s.order && (due ==> s.heap[a].recurring))
  {
    ExpireIsRearm(s, now, probe);
    DueExact(s, now);
    assert ListExpire(s, now, probe).0.heap[a] == AfterExpiry(s, now, a);
  }

  /** So exactly that happens to all timers, and the set stays sorted. */
  lemma ExpireEffect(s: State, now: nat, probe: nat)
    requires Inv(s)
    ensures var s', roll := ListExpire(s, now, probe).0, Rollover(s.previous, now);
            && s'.heap.Keys == s.heap.Keys && Sorted(s'.heap, s'.order)
            && (forall a :: a in s.heap ==>
                  s'.heap[a] == if !(a in s.order && (roll || s.heap[a].next <= now)) then s.heap[a]
                                else if s.heap[a].recurring
                                then s.heap[a].(next := Add64(now, s.heap[a].ms))
                                else s.heap[a].(cb := None))
            && (forall a :: a in s.heap ==>
                  (a in s'.order <==> a in s.order && (roll || s.heap[a].next <= now ==> s.heap[a].recurring)))
            && s'.previous == if s.order == [] then s.previous else now
  {
    ExpireIsRearm(s, now, probe);
    forall a | a in s.heap
      ensures var s', roll := ListExpire(s, now, probe).0, Rollover(s.previous, now);
              && s'.heap[a] == (if !(a in s.order && (roll || s.heap[a].next <= now)) then s.heap[a]
                                else if s.heap[a].recurring
                                then s.heap[a].(next := Add64(now, s.heap[a].ms))
                                else s.heap[a].(cb := None))
              && (a in s'.order <==> a in s.order && (roll || s.heap[a].next <= now ==> s.heap[a].recurring))
    {
      ExpireOne(s, now, probe, a);
    }
  }

  /** So a recurring timer that has just been handed out is not handed out again before its period is over, unless
      its deadline wrapped around. */
  lemma NotAgainBeforeItsPeriod(s: State, now: nat, probe: nat, a: nat, now': nat, probe': nat)
    requires Inv(s) && a in ListExpire(s, now, probe).1 && s.heap[a].recurring
    requires now <= now' && now + s.heap[a].ms < U64
    ensures a in ListExpire(ListExpire(s, now, probe).0, now', probe').1 <==> now' >= now + s.heap[a].ms
  {
    var s' := ListExpire(s, now, probe).0;
    ExpireHandsOutDue(s, now, probe);
    assert a in s.order && a in s.heap;
    WrapsExactly(now, s.heap[a].ms);
    ExpireOne(s, now, probe, a);
    ExpireIsRearm(s, now, probe);
    ExpireKeeps(s, now, probe);
    ExpireHandsOutDue(s', now', probe');
  }

  lemma ExpireKeeps(s: State, now: nat, probe: nat)
    requires Inv(s)
    ensures Inv(ListExpire(s, now, probe).0)
  {
    ExpireIsRearm(s, now, probe);
    var s' := ListExpire(s, now, probe).0;
    forall a | a in s'.heap && s'.heap[a].cb.Some? ensures a in s'.order && s'.heap[a].hadCb {
      assert s'.heap[a] == AfterExpiry(s, now, a);
    }
    forall a | a in s'.order && s'.heap[a].hadCb ensures s'.heap[a].cb.Some? {
      assert s'.heap[a] == AfterExpiry(s, now, a);
    }
  }

  /** The due prefix contains every due timer and no other. */
  lemma DueExact(s: State, now: nat)
    requires Sorted(s.heap, s.order)
    ensures forall a :: a in s.order[..Due(s, now)] <==>
      a in s.order && (Rollover(s.previous, now) || s.heap[a].next <= now)
  {
    var d := Due(s, now);
    PrefixesAreDistinct(s, d);
    if !Rollover(s.previous, now) {
      forall i | d <= i < |s.order| ensures s.heap[s.order[i]].next > now {
        assert i > d ==> Less(s.heap, s.order[d], s.order[i]);
      }
    }
  }

  // ----- the delay to the next timer

  /** The delay is exact: before t + d nothing is handed out, from then on at least the front timer.  Without a timer
      it is the largest 64-bit number. */
  lemma NextTimerIsExact(s: State, t: nat, t': nat, probe: nat)
    requires Inv(s) && t <= t' && !Rollover(s.previous, t')
    ensures var d := GetNextTimer(s, t);
            && (s.order == [] ==> d == 0xFFFF_FFFF_FFFF_FFFF && ListExpire(s, t', probe) == (s, []))
            && (s.order != [] && t' < t + d ==> ListExpire(s, t', probe).1 == [])
            && (s.order != [] && t' >= t + d ==> s.order[0] in ListExpire(s, t', probe).1)
  {
    if s.order != [] {
      ExpireHandsOutDue(s, t', probe);
      DueExact(s, t');
      assert s.order[0] in s.order;
      if t' < t + GetNextTimer(s, t) {
        assert Due(s, t') == 0;
      }
    }
  }

  /** The wait given to epoll_wait is bounded by the delay exactly if the delay survives the
      conversion to int; in particular for every delay below 2^31. */
  lemma ClampIsSafeExactly(delay: nat)
    requires delay < NO_TIMER
    ensures 0 <= EpollTimeout(delay) <= delay && EpollTimeout(delay) <= MAX_TIMEOUT <==>
      delay % 0x1_0000_0000 < 0x8000_0000
    ensures delay < 0x8000_0000 ==> EpollTimeout(delay) == if delay < MAX_TIMEOUT then delay else MAX_TIMEOUT
  {
  }

  /** The wait for every delay: five seconds at most and without a timer; the low 32 bits of the delay if, read as an
      int, they are less. */
  lemma EpollTimeoutExactly(delay: nat)
    ensures delay == 0xFFFF_FFFF_FFFF_FFFF ==> EpollTimeout(delay) == 5000
    ensures var low := delay % 0x1_0000_0000;
            delay != 0xFFFF_FFFF_FFFF_FFFF ==>
              EpollTimeout(delay) == if low >= 0x8000_0000 then low - 0x1_0000_0000
                                     else if low < 5000 then low else 5000
  {
  }
}
