/** IOManager's methods as they update its fields in place, against the operations of FdEvents.
    `fault` and `faults` stand for epoll_ctl failing; `woken` collects what is handed to schedule. */
module IOManager {
  import opened Counting
  import opened Tasks
  import opened FdEvents
  import opened FdEventProofs

  datatype Ready = Ready(fd: nat, report: Report, fault: bool)

  /** The dispatch loop of `idle`: a refused event is skipped. */
  function DispatchAll(o: Outcome, events: seq<Ready>): Outcome
    decreases |events|
  {
    if events == [] || !o.Done? then o
    else
      var r := Dispatch(o.io, events[0].fd, events[0].report, events[0].fault);
      DispatchAll(match r
                  case Done(io, woken) => Done(io, o.woken + woken)
                  case Refused(io) => Done(io, o.woken)
                  case Aborted => Aborted, events[1..])
  }

  /** What the loop does after one more event: what this hands out comes behind what was handed out before, a
      refusal adds nothing, and after an abort nothing happens. */
  lemma {:induction false} DispatchInOrder(o: Outcome, events: seq<Ready>, e: Ready)
    ensures DispatchAll(o, []) == o
    ensures var so := DispatchAll(o, events);
            var all := DispatchAll(o, events + [e]);
            if !so.Done? then all == so
            else
              var r := Dispatch(so.io, e.fd, e.report, e.fault);
              && (r.Done? ==> all == Done(r.io, so.woken + r.woken))
              && (r.Refused? ==> all == Done(r.io, so.woken))
              && (r.Aborted? ==> all.Aborted?)
    decreases |events|
  {
    if events == [] {
      assert [e][1..] == [] && events + [e] == [e];
    } else if o.Done? {
      assert (events + [e])[1..] == events[1..] + [e];
      var r := Dispatch(o.io, events[0].fd, events[0].report, events[0].fault);
      match r
      case Done(io, woken) => DispatchInOrder(Done(io, o.woken + woken), events[1..], e);
      case Refused(io) => DispatchInOrder(Done(io, o.woken), events[1..], e);
      case Aborted => DispatchInOrder(Aborted, events[1..], e);
    }
  }

  /** The table the constructor makes. */
  lemma NewTable(io: Io)
    requires io == Io(Resized([], INITIAL_FDS), map[], 0, 0)
    ensures io == InitialIo() && IoInv(io) && SlotsExact(io)
  {
    FreshIoInv(INITIAL_FDS);
    assert [] + FreshFds(INITIAL_FDS) == FreshFds(INITIAL_FDS);
  }

  class Manager {
    var fdEvents: seq<FdEvent>
    var kernel: map<nat, Mask>
    var pending: int
    var nextReg: nat

    ghost function Value(): Io
      reads this
    {
      Io(fdEvents, kernel, pending, nextReg)
    }

    ghost predicate Valid()
      reads this
    {
      IoInv(Value())
    }

    constructor ()
      ensures Value() == InitialIo() && Valid() && SlotsExact(Value())
      ensures |fdEvents| == 32 && kernel == map[] && pending == 0
    {
      fdEvents, kernel, pending, nextReg := [], map[], 0, 0;
      new;
      EventResize(INITIAL_FDS);
      NewTable(Value());
    }

    /** eventResize: a smaller table is cut off, new places are filled with fresh FdEvents. */
    method EventResize(size: nat)
      modifies `fdEvents
      ensures fdEvents == Resized(old(fdEvents), size)
      ensures |fdEvents| == size
      ensures forall k :: 0 <= k < size ==>
        fdEvents[k] == if k < |old(fdEvents)| then old(fdEvents)[k]
                       else FdEvent(EMPTY_SLOT, EMPTY_SLOT, Mask(false, false))
    {
      if size < |fdEvents| {
        fdEvents := fdEvents[..size];
      }
      ghost var kept := fdEvents;
      while |fdEvents| < size
        invariant |kept| <= |fdEvents| <= size && fdEvents == kept + FreshFds(|fdEvents| - |kept|)
      {
        fdEvents := fdEvents + [FRESH_FD];
      }
    }

    /** epoll_ctl: 0 or an error. */
    method EpollControl(op: Op, fd: nat, m: Mask, fault: bool) returns (ok: bool)
      modifies `kernel
      ensures ok <==> EpollCtl(old(kernel), op, fd, m, fault).Some?
      ensures kernel == if ok then EpollCtl(old(kernel), op, fd, m, fault).value else old(kernel)
    {
      ok := !fault && (op.Add? <==> fd !in kernel);
      if ok {
        kernel := if op.Del? then kernel - {fd} else kernel[fd := m];
      }
    }

    /** FdEvent::triggerEvent with the decrement that follows every call of it. */
    method TriggerEvent(fd: nat, ev: EventType) returns (aborted: bool, slot: Slot)
      requires fd < |fdEvents|
      modifies `fdEvents, `pending
      ensures aborted <==> Trigger(Done(old(Value()), []), fd, ev).Aborted?
      ensures !aborted ==> Trigger(Done(old(Value()), []), fd, ev) == Done(Value(), [slot])
      ensures aborted ==> Value() == old(Value())
    {
      var e := fdEvents[fd];
      slot := e.Get(ev);
      aborted := !e.et.Has(ev);
      if !aborted {
        e := e.(et := e.et.Without(ev));
        if slot.cb.Some? {
          e := e.Put(ev, slot.(cb := None));
        } else {
          e := e.Put(ev, slot.(fiber := None));
        }
        e := e.Put(ev, e.Get(ev).(scheduler := false));
        fdEvents := fdEvents[fd := e];
        pending := pending - 1;
      }
    }

    /** The tail of addEvent, after epoll_ctl succeeded and the slot was found empty. */
    method FillSlot(fd: nat, ev: EventType, who: Task)
      requires fd < |fdEvents|
      modifies `fdEvents, `pending, `nextReg
      ensures pending == old(pending) + 1 && nextReg == old(nextReg) + 1
      ensures var e := old(fdEvents[fd]);
              var s := match who
                case FiberTask(f) => Slot(true, Some(f), None, old(nextReg))
                case CbTask(c) => Slot(true, None, Some(c), old(nextReg));
              fdEvents == old(fdEvents)[fd := e.(et := e.et.With(ev)).Put(ev, s)]
    {
      var e := fdEvents[fd];
      pending := pending + 1;
      e := e.(et := e.et.With(ev));
      if who.CbTask? {
        e := e.Put(ev, Slot(true, None, Some(who.cb), nextReg));
      } else {
        e := e.Put(ev, Slot(true, Some(who.fiber), None, nextReg));
      }
      fdEvents, nextReg := fdEvents[fd := e], nextReg + 1;
    }

    /** addEvent: 0 on success, -1 when epoll_ctl fails. */
    method AddEvent(fd: nat, ev: EventType, who: Task, fault: bool) returns (aborted: bool, res: int)
      requires Valid()
      modifies this
      ensures var o := FdEvents.AddEvent(old(Value()), fd, ev, who, fault);
              o == if aborted then Aborted else if res == 0 then Done(Value(), []) else Refused(Value())
      ensures !aborted ==> Valid() && (res == 0 || res == -1)
    {
      ghost var was := Value();
      AddEventKeeps(was, fd, ev, who, fault);
      aborted, res := AddGrown(fd, ev, who, fault);
    }

    method AddGrown(fd: nat, ev: EventType, who: Task, fault: bool) returns (aborted: bool, res: int)
      requires Valid()
      modifies this
      ensures var o := FdEvents.AddEvent(old(Value()), fd, ev, who, fault);
              o == if aborted then Aborted else if res == 0 then Done(Value(), []) else Refused(Value())
      ensures res == 0 || res == -1
    {
      ghost var was := Value();
      GrowKeeps(was, fd);
      if |fdEvents| <= fd {
        EventResize(fd * 3 / 2);
      }
      assert Value() == Grow(was, fd);
      var e := fdEvents[fd];
      if e.et.Has(ev) {
        return true, -1;
      }
      var ok := EpollControl(if e.et.IsNone() then Add else Mod, fd, e.et.With(ev), fault);
      if !ok {
        return false, -1;
      }
      if !e.Get(ev).Empty() {
        return true, -1;
      }
      FillSlot(fd, ev, who);
      return false, 0;
    }

    /** delEvent: what resetEvent clears is a copy of the slot. */
    method DelEvent(fd: nat, ev: EventType, fault: bool) returns (ok: bool)
      requires Valid()
      modifies this
      ensures Valid()
      ensures FdEvents.DelEvent(old(Value()), fd, ev, fault) == if ok then Done(Value(), []) else Refused(Value())
    {
      DelEventKeeps(Value(), fd, ev, fault);
      if |fdEvents| <= fd || !fdEvents[fd].et.Has(ev) {
        return false;
      }
      var e := fdEvents[fd];
      var rest := e.et.Without(ev);
      ok := EpollControl(if rest.IsNone() then Del else Mod, fd, rest, fault);
      if ok {
        pending := pending - 1;
        fdEvents := fdEvents[fd := e.(et := rest)];
      }
    }

    method CancelEvent(fd: nat, ev: EventType, fault: bool) returns (ok: bool, woken: seq<Slot>)
      requires Valid()
      modifies this
      ensures Valid()
      ensures FdEvents.CancelEvent(old(Value()), fd, ev, fault) == if ok then Done(Value(), woken) else Refused(Value())
    {
      CancelEventKeeps(Value(), fd, ev, fault, s => 0);
      woken := [];
      if |fdEvents| <= fd || !fdEvents[fd].et.Has(ev) {
        return false, [];
      }
      var rest := fdEvents[fd].et.Without(ev);
      ok := EpollControl(if rest.IsNone() then Del else Mod, fd, rest, fault);
      if ok {
        var aborted, slot := TriggerEvent(fd, ev);
        woken := [slot];
      }
    }

    /** Triggers the bits of `m`, READ first, adding to `woken`. */
    method TriggerBits(fd: nat, m: Mask) returns (aborted: bool, woken: seq<Slot>)
      requires fd < |fdEvents|
      modifies `fdEvents, `pending
      ensures var a := if m.read then Trigger(Done(old(Value()), []), fd, Read) else Done(old(Value()), []);
              var o := if m.write then Trigger(a, fd, Write) else a;
              if aborted then o.Aborted? else o == Done(Value(), woken)
    {
      aborted, woken := false, [];
      if m.read {
        var slot;
        aborted, slot := TriggerEvent(fd, Read);
        if aborted {
          return;
        }
        woken := woken + [slot];
      }
      if m.write {
        var slot;
        aborted, slot := TriggerEvent(fd, Write);
        woken := woken + [slot];
      }
    }

    method CancelAll(fd: nat, fault: bool) returns (ok: bool, woken: seq<Slot>)
      requires Valid()
      modifies this
      ensures Valid()
      ensures FdEvents.CancelAll(old(Value()), fd, fault) == if ok then Done(Value(), woken) else Refused(Value())
    {
      CancelAllKeeps(Value(), fd, fault, s => 0);
      if |fdEvents| <= fd || fdEvents[fd].et.IsNone() {
        return false, [];
      }
      ok := EpollControl(Del, fd, Mask(false, false), fault);
      woken := [];
      if ok {
        var aborted;
        aborted, woken := TriggerBits(fd, fdEvents[fd].et);
      }
    }

    /** The loop of `idle` over what epoll_wait reported. */
    method DispatchEvents(events: seq<Ready>) returns (aborted: bool, woken: seq<Slot>)
      requires Valid()
      requires forall i :: 0 <= i < |events| ==> events[i].fd < |fdEvents|
      modifies this
      ensures DispatchAll(Done(old(Value()), []), events) == if aborted then Aborted else Done(Value(), woken)
      ensures !aborted ==> Valid()
    {
      aborted, woken := false, [];
      var i := 0;
      while i < |events|
        invariant i <= |events| && Valid() && |fdEvents| == |old(fdEvents)|
        invariant DispatchAll(Done(old(Value()), []), events) == DispatchAll(Done(Value(), woken), events[i..])
      {
        var e := events[i];
        ghost var was := Value();
        DispatchKeeps(was, e.fd, e.report, e.fault, s => 0);
        DispatchKeepsLength(was, e.fd, e.report, e.fault);
        var et, shown := fdEvents[e.fd].et, e.report.Real();
        i := i + 1;
        assert events[i - 1..][1..] == events[i..] && events[i - 1..][0] == e;
        if !shown.Meet(et).IsNone() {
          var left := et.Minus(shown);
          var ok := EpollControl(if left.IsNone() then Del else Mod, e.fd, left, e.fault);
          if ok {
            var more;
            aborted, more := TriggerBits(e.fd, shown);
            if aborted {
              AbortedStays(events[i..]);
              return;
            }
            woken := woken + more;
          }
        }
      }
      assert events[i..] == [];
    }
  }

  lemma AbortedStays(events: seq<Ready>)
    ensures DispatchAll(Aborted, events) == Aborted
  {
  }

  lemma DispatchKeepsLength(io: Io, fd: nat, r: Report, fault: bool)
    requires IoInv(io) && fd < |io.fds|
    ensures var o := Dispatch(io, fd, r, fault);
            !o.Aborted? ==> |o.io.fds| == |io.fds|
  {
  }
}
