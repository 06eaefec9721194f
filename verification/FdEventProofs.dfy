/** What every IOManager operation keeps, whatever the kernel answers. */
module FdEventProofs {
  import opened Counting
  import opened Tasks
  import opened FdEvents

  /** Everything in IoInv that does not speak of the kernel. */
  ghost predicate TableInv(io: Io)
  {
    && |io.fds| >= INITIAL_FDS
    && io.pending == Sum(io.fds, Bits)
    && forall fd :: 0 <= fd < |io.fds| ==> FdArmed(io.fds[fd])
  }

  lemma FreshIoInv(n: nat)
    requires n >= INITIAL_FDS
    ensures IoInv(Io(FreshFds(n), map[], 0, 0)) && SlotsExact(Io(FreshFds(n), map[], 0, 0))
  {
    SumZero(FreshFds(n), Bits);
  }

  /** A kernel that followed the change of one fd's bits is exact again. */
  lemma KernelFollows(io: Io, io': Io, fd: nat, m: Mask)
    requires KernelExact(io) && fd < |io.fds| == |io'.fds|
    requires io'.fds[fd].et == m
    requires forall k :: 0 <= k < |io.fds| && k != fd ==> io'.fds[k] == io.fds[k]
    requires io'.kernel == if m.IsNone() then io.kernel - {fd} else io.kernel[fd := m]
    ensures KernelExact(io')
  {
  }

  // ----- growth

  /** Growing the table makes room for the fd and changes nothing else. */
  lemma GrowKeeps(io: Io, fd: nat)
    requires IoInv(io)
    ensures fd < |Grow(io, fd).fds| && io.fds <= Grow(io, fd).fds
    ensures IoInv(Grow(io, fd)) && (SlotsExact(io) ==> SlotsExact(Grow(io, fd)))
  {
    var io' := Grow(io, fd);
    var more := io'.fds[|io.fds|..];
    assert io'.fds == io.fds + more;
    SumAppend(io.fds, more, Bits);
    SumZero(more, Bits);
  }

  /** A table that is too small grows to half as many places again as the fd's number; the new ones are empty. */
  lemma GrowExactly(io: Io, fd: nat)
    ensures Grow(io, fd) == io.(fds := Grow(io, fd).fds)
    ensures |Grow(io, fd).fds| == if fd < |io.fds| then |io.fds| else fd * 3 / 2
    ensures forall k :: |io.fds| <= k < |Grow(io, fd).fds| ==>
      Grow(io, fd).fds[k] == FdEvent(EMPTY_SLOT, EMPTY_SLOT, Mask(false, false))
  {
  }

  lemma GrowWeight(io: Io, fd: nat, p: Slot -> nat)
    requires |io.fds| >= INITIAL_FDS
    ensures Weight(Grow(io, fd), p) == Weight(io, p)
  {
    var io' := Grow(io, fd);
    var more := io'.fds[|io.fds|..];
    assert io'.fds == io.fds + more;
    SumAppend(io.fds, more, Registered(p));
    SumZero(more, Registered(p));
  }

  // ----- triggering

  lemma TriggerKeeps(io: Io, woken: seq<Slot>, fd: nat, ev: EventType)
    requires TableInv(io) && fd < |io.fds| && io.fds[fd].et.Has(ev)
    ensures var o := Trigger(Done(io, woken), fd, ev);
            && o.Done? && TableInv(o.io) && o.woken == woken + [io.fds[fd].Get(ev)]
            && o.io == io.(fds := io.fds[fd := o.io.fds[fd]], pending := io.pending - 1)
            && (ev.Read? ==> o.io.fds[fd] == FdEvent(Slot(false, None, None, io.fds[fd].read.reg), io.fds[fd].write,
                                                     Mask(false, io.fds[fd].et.write)))
            && (ev.Write? ==> o.io.fds[fd] == FdEvent(io.fds[fd].read, Slot(false, None, None, io.fds[fd].write.reg),
                                                      Mask(io.fds[fd].et.read, false)))
            && (SlotsExact(io) ==> SlotsExact(o.io))
  {
    var o := Trigger(Done(io, woken), fd, ev);
    SumUpdate(io.fds, fd, o.io.fds[fd], Bits);
  }

  /** Triggering moves a registration's weight out of the table. */
  lemma TriggerWeight(io: Io, woken: seq<Slot>, fd: nat, ev: EventType, p: Slot -> nat)
    requires fd < |io.fds| && io.fds[fd].et.Has(ev)
    ensures var o := Trigger(Done(io, woken), fd, ev);
            o.Done? && Weight(o.io, p) + Sum(o.woken, p) == Weight(io, p) + Sum(woken, p)
  {
    var o := Trigger(Done(io, woken), fd, ev);
    SumUpdate(io.fds, fd, o.io.fds[fd], Registered(p));
    SumSnoc(woken, io.fds[fd].Get(ev), p);
  }

  // ----- the operations

  /** From `fds` to `fds'` the task has been put into the slot of the event, the event's bit set, and nothing else
      changed. */
  predicate Registers(fds: seq<FdEvent>, fds': seq<FdEvent>, fd: nat, ev: EventType, who: Task, reg: nat)
    requires fd < |fds|
  {
    && |fds'| == |fds| && (forall k :: 0 <= k < |fds| && k != fd ==> fds'[k] == fds[k])
    && (ev.Read? ==> fds'[fd].et == Mask(true, fds[fd].et.write) && fds'[fd].write == fds[fd].write)
    && (ev.Write? ==> fds'[fd].et == Mask(fds[fd].et.read, true) && fds'[fd].read == fds[fd].read)
    && var s := if ev.Read? then fds'[fd].read else fds'[fd].write;
       s.scheduler && s.reg == reg && (who.FiberTask? ==> s.fiber == Some(who.fiber) && s.cb.None?)
       && (who.CbTask? ==> s.cb == Some(who.cb) && s.fiber.None?)
  }

  /** addEvent aborts exactly on a duplicate registration or (once the kernel agreed) on a slot
      that still holds something; its epoll_ctl is always legal, so it is refused only by a fault;
      and a refusal changes no registration. */
  lemma AddEventKeeps(io: Io, fd: nat, ev: EventType, who: Task, fault: bool)
    requires IoInv(io)
    ensures var o := AddEvent(io, fd, ev, who, fault);
            var e := Grow(io, fd).fds[fd];
            var taken, slot := if ev.Read? then e.et.read else e.et.write, if ev.Read? then e.read else e.write;
            && (o.Aborted? <==> taken || (!fault && (slot.scheduler || slot.fiber.Some? || slot.cb.Some?)))
            && (o.Refused? <==> !taken && fault)
            && (o.Refused? ==> o.io == Grow(io, fd) && IoInv(o.io))
            && (o.Done? ==> IoInv(o.io) && o.io.pending == io.pending + 1 && o.woken == [])
            && (!o.Aborted? && SlotsExact(io) ==> SlotsExact(o.io))
  {
    GrowKeeps(io, fd);
    var g := Grow(io, fd);
    var o := AddEvent(io, fd, ev, who, fault);
    assert fd !in g.kernel <==> g.fds[fd].et.IsNone();
    if o.Done? {
      SumUpdate(g.fds, fd, o.io.fds[fd], Bits);
      KernelFollows(g, o.io, fd, g.fds[fd].et.With(ev));
    }
  }

  /** And a successful one registers exactly the task it was given, for exactly that event. */
  lemma AddEventRegisters(io: Io, fd: nat, ev: EventType, who: Task, fault: bool)
    requires IoInv(io) && AddEvent(io, fd, ev, who, fault).Done?
    ensures fd < |Grow(io, fd).fds|
    ensures var o := AddEvent(io, fd, ev, who, fault);
            o.io.nextReg == io.nextReg + 1 && Registers(Grow(io, fd).fds, o.io.fds, fd, ev, who, io.nextReg)
  {
    GrowKeeps(io, fd);
  }

  lemma AddEventWeight(io: Io, fd: nat, ev: EventType, who: Task, fault: bool, p: Slot -> nat)
    requires IoInv(io)
    ensures var o := AddEvent(io, fd, ev, who, fault);
            && (o.Refused? ==> Weight(o.io, p) == Weight(io, p))
            && (o.Done? ==> fd < |o.io.fds| && Weight(o.io, p) == Weight(io, p) + p(o.io.fds[fd].Get(ev)))
  {
    GrowKeeps(io, fd);
    GrowWeight(io, fd, p);
    var g := Grow(io, fd);
    var o := AddEvent(io, fd, ev, who, fault);
    if o.Done? {
      SumUpdate(g.fds, fd, o.io.fds[fd], Registered(p));
    }
  }

  lemma DelEventKeeps(io: Io, fd: nat, ev: EventType, fault: bool)
    requires IoInv(io)
    ensures var o := DelEvent(io, fd, ev, fault);
            && !o.Aborted?
            && (o.Refused? <==>
                  fault || fd >= |io.fds| || !(if ev.Read? then io.fds[fd].et.read else io.fds[fd].et.write))
            && (o.Refused? ==> o.io == io)
            && (o.Done? ==> IoInv(o.io) && o.woken == [] && o.io.nextReg == io.nextReg)
            && (o.Done? && ev.Read? ==> o.io.fds == io.fds[fd := io.fds[fd].(et := Mask(false, io.fds[fd].et.write))])
            && (o.Done? && ev.Write? ==> o.io.fds == io.fds[fd := io.fds[fd].(et := Mask(io.fds[fd].et.read, false))])
  {
    var o := DelEvent(io, fd, ev, fault);
    if o.Done? {
      SumUpdate(io.fds, fd, o.io.fds[fd], Bits);
      KernelFollows(io, o.io, fd, o.io.fds[fd].et);
    }
  }

  lemma DelEventWeight(io: Io, fd: nat, ev: EventType, fault: bool, p: Slot -> nat)
    requires IoInv(io)
    ensures var o := DelEvent(io, fd, ev, fault);
            && (o.Refused? ==> Weight(o.io, p) == Weight(io, p))
            && (o.Done? ==> fd < |io.fds| && Weight(o.io, p) + p(io.fds[fd].Get(ev)) == Weight(io, p))
  {
    var o := DelEvent(io, fd, ev, fault);
    if o.Done? {
      SumUpdate(io.fds, fd, o.io.fds[fd], Registered(p));
    }
  }

  /** The outcome of an operation that only moves registrations out of the table. */
  ghost predicate Moves(io: Io, o: Outcome, p: Slot -> nat)
  {
    o.Done? && IoInv(o.io) && o.io.nextReg == io.nextReg && Weight(o.io, p) + Sum(o.woken, p) == Weight(io, p)
  }

  /** From `fds` to `fds'` the slots of READ, of WRITE or of both have been emptied, their bits cleared, and nothing
      else changed. */
  predicate Drained(fds: seq<FdEvent>, fds': seq<FdEvent>, fd: nat, rd: bool, wr: bool)
    requires fd < |fds|
  {
    && |fds'| == |fds| && (forall k :: 0 <= k < |fds| && k != fd ==> fds'[k] == fds[k])
    && fds'[fd].et == Mask(fds[fd].et.read && !rd, fds[fd].et.write && !wr)
    && fds'[fd].read == (if rd then Slot(false, None, None, fds[fd].read.reg) else fds[fd].read)
    && fds'[fd].write == (if wr then Slot(false, None, None, fds[fd].write.reg) else fds[fd].write)
  }

  lemma CancelEventKeeps(io: Io, fd: nat, ev: EventType, fault: bool, p: Slot -> nat)
    requires IoInv(io)
    ensures var o := CancelEvent(io, fd, ev, fault);
            && !o.Aborted?
            && (o.Refused? <==>
                  fault || fd >= |io.fds| || !(if ev.Read? then io.fds[fd].et.read else io.fds[fd].et.write))
            && (o.Refused? ==> o.io == io)
            && (o.Done? ==> Moves(io, o, p) && o.woken == [if ev.Read? then io.fds[fd].read else io.fds[fd].write])
            && (o.Done? ==> Drained(io.fds, o.io.fds, fd, ev.Read?, ev.Write?))
            && (SlotsExact(io) ==> SlotsExact(o.io))
  {
    if !fault && fd < |io.fds| && io.fds[fd].et.Has(ev) {
      var rest := io.fds[fd].et.Without(ev);
      var io1 := io.(kernel := if rest.IsNone() then io.kernel - {fd} else io.kernel[fd := rest]);
      TriggerKeeps(io1, [], fd, ev);
      TriggerWeight(io1, [], fd, ev, p);
      KernelFollows(io, CancelEvent(io, fd, ev, fault).io, fd, rest);
    }
  }

  /** The slots of the bits in `m`, READ before WRITE: the order in which they are triggered. */
  function SlotsIn(e: FdEvent, m: Mask): seq<Slot>
  {
    (if m.read then [e.read] else []) + (if m.write then [e.write] else [])
  }

  /** cancelAll and a fitting dispatch both trigger all bits of `m`, READ first. */
  lemma TriggerBoth(io: Io, fd: nat, m: Mask, p: Slot -> nat)
    requires TableInv(io) && fd < |io.fds| && m.Minus(io.fds[fd].et).IsNone()
    ensures var a := if m.read then Trigger(Done(io, []), fd, Read) else Done(io, []);
            var o := if m.write then Trigger(a, fd, Write) else a;
            && o.Done? && TableInv(o.io) && o.woken == SlotsIn(io.fds[fd], m)
            && o.io.kernel == io.kernel && o.io.nextReg == io.nextReg && Drained(io.fds, o.io.fds, fd, m.read, m.write)
            && (SlotsExact(io) ==> SlotsExact(o.io))
            && Weight(o.io, p) + Sum(o.woken, p) == Weight(io, p)
  {
    var a := if m.read then Trigger(Done(io, []), fd, Read) else Done(io, []);
    if m.read {
      TriggerKeeps(io, [], fd, Read);
      TriggerWeight(io, [], fd, Read, p);
    }
    if m.write {
      TriggerKeeps(a.io, a.woken, fd, Write);
      TriggerWeight(a.io, a.woken, fd, Write, p);
    }
  }

  lemma CancelAllKeeps(io: Io, fd: nat, fault: bool, p: Slot -> nat)
    requires IoInv(io)
    ensures var o := CancelAll(io, fd, fault);
            && !o.Aborted?
            && (o.Refused? <==> fault || fd >= |io.fds| || (!io.fds[fd].et.read && !io.fds[fd].et.write))
            && (o.Refused? ==> o.io == io)
            && (o.Done? ==> Moves(io, o, p) && Drained(io.fds, o.io.fds, fd, io.fds[fd].et.read, io.fds[fd].et.write))
            && (o.Done? ==> o.woken == (if io.fds[fd].et.read then [io.fds[fd].read] else [])
                                       + (if io.fds[fd].et.write then [io.fds[fd].write] else []))
            && (SlotsExact(io) ==> SlotsExact(o.io))
  {
    if !fault && fd < |io.fds| && !io.fds[fd].et.IsNone() {
      TriggerBoth(io.(kernel := io.kernel - {fd}), fd, io.fds[fd].et, p);
      KernelFollows(io, CancelAll(io, fd, fault).io, fd, Mask(false, false));
    }
  }

  /** An error or hang-up counts as readable and writable.  The dispatch of a reported event aborts exactly when the
      report carries a registered event and also an unregistered one, is refused exactly on a fault or when it carries
      no registered one, and otherwise hands out what waits for the reported events, READ first, and clears their
      bits. */
  lemma DispatchKeeps(io: Io, fd: nat, r: Report, fault: bool, p: Slot -> nat)
    requires IoInv(io) && fd < |io.fds|
    ensures var o, e := Dispatch(io, fd, r, fault), io.fds[fd];
            var rd, wr := r.readable || r.errorOrHangup, r.writable || r.errorOrHangup;
            && (o.Refused? <==> fault || !((rd && e.et.read) || (wr && e.et.write)))
            && (o.Aborted? <==> !fault && ((rd && e.et.read) || (wr && e.et.write))
                                && ((rd && !e.et.read) || (wr && !e.et.write)))
            && (o.Refused? ==> o.io == io)
            && (o.Done? ==> Moves(io, o, p) && Drained(io.fds, o.io.fds, fd, rd, wr))
            && (o.Done? ==> o.woken == (if rd then [e.read] else []) + (if wr then [e.write] else []))
            && (!o.Aborted? && SlotsExact(io) ==> SlotsExact(o.io))
  {
    var m := r.Real();
    if !fault && !m.Meet(io.fds[fd].et).IsNone() {
      var left := io.fds[fd].et.Minus(m);
      var io1 := io.(kernel := if left.IsNone() then io.kernel - {fd} else io.kernel[fd := left]);
      if m.Minus(io.fds[fd].et).IsNone() {
        TriggerBoth(io1, fd, m, p);
        KernelFollows(io, Dispatch(io, fd, r, fault).io, fd, left);
      } else if m.read && io.fds[fd].et.read {
        TriggerKeeps(io1, [], fd, Read);
      }
    }
  }

  // ----- where the code departs from its intent

  /** A hang-up on an fd registered for reading only: the dispatch hits the assertion. */
  lemma HangupOnHalfRegisteredFdAborts(io: Io, fd: nat)
    requires IoInv(io) && fd < |io.fds| && io.fds[fd].et == Mask(true, false)
    ensures Dispatch(io, fd, Report(false, false, true), false).Aborted?
  {
    DispatchKeeps(io, fd, Report(false, false, true), false, s => 0);
  }

  /** After a successful delEvent, adding the same event again aborts. */
  lemma ReAddAfterDelAborts(io: Io, fd: nat, ev: EventType, who: Task)
    requires IoInv(io) && DelEvent(io, fd, ev, false).Done?
    ensures AddEvent(DelEvent(io, fd, ev, false).io, fd, ev, who, false).Aborted?
  {
    DelEventKeeps(io, fd, ev, false);
    AddEventKeeps(DelEvent(io, fd, ev, false).io, fd, ev, who, false);
  }

  /** So delEvent keeps "a full slot means a set bit" exactly when it does nothing. */
  lemma DelEventExactness(io: Io, fd: nat, ev: EventType, fault: bool)
    requires IoInv(io) && SlotsExact(io)
    ensures SlotsExact(DelEvent(io, fd, ev, fault).io) <==> fault || fd >= |io.fds| || !io.fds[fd].et.Has(ev)
  {
    DelEventKeeps(io, fd, ev, fault);
    if DelEvent(io, fd, ev, fault).Done? {
      assert FdExact(io.fds[fd]);
      assert !FdExact(DelEvent(io, fd, ev, fault).io.fds[fd]);
    }
  }
}
