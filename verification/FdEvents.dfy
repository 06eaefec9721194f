/** The IOManager's fd table, the kernel's epoll interest list, and the operations on both.
    Each operation is one critical section: it holds the fd's lock from its test of `et` to its
    last update.  A failing TINY_ASSERT is the outcome `Aborted`. */
module FdEvents {
  import opened Counting
  import opened Tasks

  /** A set of READ/WRITE bits. */
  datatype Mask = Mask(read: bool, write: bool) {
    predicate IsNone() { !read && !write }
    predicate Has(ev: EventType) { if ev.Read? then read else write }
    function With(ev: EventType): Mask { if ev.Read? then Mask(true, write) else Mask(read, true) }
    function Without(ev: EventType): Mask { if ev.Read? then Mask(false, write) else Mask(read, false) }
    function Meet(m: Mask): Mask { Mask(read && m.read, write && m.write) }
    function Minus(m: Mask): Mask { Mask(read && !m.read, write && !m.write) }
  }

  /** FdEvent::Event.  `reg` numbers the registration last stored in the slot. */
  datatype Slot = Slot(scheduler: bool, fiber: Option<nat>, cb: Option<Closure>, reg: nat) {
    predicate Empty() { !scheduler && fiber.None? && cb.None? }
    predicate Armed() { scheduler && (fiber.Some? <==> cb.None?) }
    /** What triggerEvent schedules: the callback if there is one, otherwise the fiber. */
    function TaskOf(): Task
      requires Armed()
    {
      if cb.Some? then CbTask(cb.value) else FiberTask(fiber.value)
    }
  }

  datatype FdEvent = FdEvent(read: Slot, write: Slot, et: Mask) {
    function Get(ev: EventType): Slot { if ev.Read? then read else write }
    function Put(ev: EventType, s: Slot): FdEvent
    {
      if ev.Read? then FdEvent(s, write, et) else FdEvent(read, s, et)
    }
  }

  const EMPTY_SLOT := Slot(false, None, None, 0)
  const FRESH_FD := FdEvent(EMPTY_SLOT, EMPTY_SLOT, Mask(false, false))

  /** The IOManager's own data plus the kernel's interest list for its epoll instance. */
  datatype Io = Io(fds: seq<FdEvent>, kernel: map<nat, Mask>, pending: int, nextReg: nat)

  /** `Done` carries the slots that were triggered, as they were when triggered. */
  datatype Outcome = Done(io: Io, woken: seq<Slot>) | Refused(io: Io) | Aborted

  // ----- the kernel

  datatype Op = Add | Mod | Del

  /** ADD needs an absent fd, MOD and DEL a present one. */
  predicate Legal(kernel: map<nat, Mask>, op: Op, fd: nat)
  {
    op.Add? <==> fd !in kernel
  }

  /** epoll_ctl: fails on an illegal request, and otherwise whenever the environment says so. */
  function EpollCtl(kernel: map<nat, Mask>, op: Op, fd: nat, m: Mask, fault: bool): Option<map<nat, Mask>>
  {
    if fault || !Legal(kernel, op, fd) then None
    else if op.Del? then Some(kernel - {fd})
    else Some(kernel[fd := m])
  }

  // ----- the table

  const INITIAL_FDS: nat := 32

  function FreshFds(n: nat): (fds: seq<FdEvent>)
    ensures |fds| == n && forall i :: 0 <= i < n ==> fds[i] == FRESH_FD
  {
    seq(n, _ => FRESH_FD)
  }

  function InitialIo(): Io
  {
    Io(FreshFds(INITIAL_FDS), map[], 0, 0)
  }

  /** eventResize: std::vector::resize, then a fresh FdEvent in every empty place. */
  function Resized(fds: seq<FdEvent>, size: nat): (r: seq<FdEvent>)
    ensures |r| == size
  {
    if size <= |fds| then fds[..size] else fds + FreshFds(size - |fds|)
  }

  /** The lookup in addEvent, with the growth of a table that is too small. */
  function Grow(io: Io, fd: nat): Io
  {
    if fd < |io.fds| then io else io.(fds := Resized(io.fds, fd * 3 / 2))
  }

  /** triggerEvent: clears the bit, moves the callback or the fiber out of its slot and drops the
      scheduler.  The caller's decrement of m_pendingEventCount is included. */
  function Trigger(o: Outcome, fd: nat, ev: EventType): Outcome
  {
    if !o.Done? || fd >= |o.io.fds| then o
    else
      var e := o.io.fds[fd];
      var s := e.Get(ev);
      if !e.et.Has(ev) then Aborted
      else
        var s' := if s.cb.Some? then s.(scheduler := false, cb := None) else s.(scheduler := false, fiber := None);
        Done(o.io.(fds := o.io.fds[fd := e.(et := e.et.Without(ev)).Put(ev, s')], pending := o.io.pending - 1),
             o.woken + [s])
  }

  function AddEvent(io0: Io, fd: nat, ev: EventType, who: Task, fault: bool): Outcome
  {
    var io := Grow(io0, fd);
    if fd >= |io.fds| then Aborted
    else
      var e := io.fds[fd];
      if e.et.Has(ev) then Aborted
      else
        match EpollCtl(io.kernel, if e.et.IsNone() then Add else Mod, fd, e.et.With(ev), fault)
        case None => Refused(io)
        case Some(k) =>
          if !e.Get(ev).Empty() then Aborted
          else
            var s := match who
              case FiberTask(f) => Slot(true, Some(f), None, io.nextReg)
              case CbTask(c) => Slot(true, None, Some(c), io.nextReg);
            Done(Io(io.fds[fd := e.(et := e.et.With(ev)).Put(ev, s)], k, io.pending + 1, io.nextReg + 1), [])
  }

  /** delEvent: resetEvent clears a copy, so the slot itself keeps its contents. */
  function DelEvent(io: Io, fd: nat, ev: EventType, fault: bool): Outcome
  {
    if fd >= |io.fds| || !io.fds[fd].et.Has(ev) then Refused(io)
    else
      var e := io.fds[fd];
      var rest := e.et.Without(ev);
      match EpollCtl(io.kernel, if rest.IsNone() then Del else Mod, fd, rest, fault)
      case None => Refused(io)
      case Some(k) => Done(Io(io.fds[fd := e.(et := rest)], k, io.pending - 1, io.nextReg), [])
  }

  function CancelEvent(io: Io, fd: nat, ev: EventType, fault: bool): Outcome
  {
    if fd >= |io.fds| || !io.fds[fd].et.Has(ev) then Refused(io)
    else
      var rest := io.fds[fd].et.Without(ev);
      match EpollCtl(io.kernel, if rest.IsNone() then Del else Mod, fd, rest, fault)
      case None => Refused(io)
      case Some(k) => Trigger(Done(io.(kernel := k), []), fd, ev)
  }

  function CancelAll(io: Io, fd: nat, fault: bool): Outcome
  {
    if fd >= |io.fds| || io.fds[fd].et.IsNone() then Refused(io)
    else
      match EpollCtl(io.kernel, Del, fd, Mask(false, false), fault)
      case None => Refused(io)
      case Some(k) =>
        var et := io.fds[fd].et;
        var a := if et.read then Trigger(Done(io.(kernel := k), []), fd, Read) else Done(io.(kernel := k), []);
        if et.write then Trigger(a, fd, Write) else a
  }

  /** One event reported by epoll_wait. */
  datatype Report = Report(readable: bool, writable: bool, errorOrHangup: bool) {
    function Real(): Mask { Mask(readable || errorOrHangup, writable || errorOrHangup) }
  }

  /** One round of the dispatch loop in `idle`.  The reported bits are not masked with the
      registered ones before triggering. */
  function Dispatch(io: Io, fd: nat, r: Report, fault: bool): Outcome
  {
    if fd >= |io.fds| || r.Real().Meet(io.fds[fd].et).IsNone() then Refused(io)
    else
      var left := io.fds[fd].et.Minus(r.Real());
      match EpollCtl(io.kernel, if left.IsNone() then Del else Mod, fd, left, fault)
      case None => Refused(io)
      case Some(k) =>
        var a := if r.Real().read then Trigger(Done(io.(kernel := k), []), fd, Read) else Done(io.(kernel := k), []);
        if r.Real().write then Trigger(a, fd, Write) else a
  }

  // ----- invariants

  function Bits(e: FdEvent): nat
  {
    (if e.et.read then 1 else 0) + (if e.et.write then 1 else 0)
  }

  /** A weight on slots, counted only where the bit is set. */
  function RegisteredWeight(e: FdEvent, p: Slot -> nat): nat
  {
    (if e.et.read then p(e.read) else 0) + (if e.et.write then p(e.write) else 0)
  }

  function Registered(p: Slot -> nat): FdEvent -> nat
  {
    (e: FdEvent) => RegisteredWeight(e, p)
  }

  /** The total weight of all registered slots. */
  function Weight(io: Io, p: Slot -> nat): nat
  {
    Sum(io.fds, Registered(p))
  }

  /** The kernel waits for exactly the registered bits of each fd. */
  ghost predicate KernelExact(io: Io)
  {
    && (forall fd :: fd in io.kernel ==> fd < |io.fds| && io.kernel[fd] == io.fds[fd].et)
    && (forall fd :: 0 <= fd < |io.fds| && !io.fds[fd].et.IsNone() ==> fd in io.kernel)
    && (forall fd :: fd in io.kernel ==> !io.kernel[fd].IsNone())
  }

  predicate FdArmed(e: FdEvent)
  {
    (e.et.read ==> e.read.Armed()) && (e.et.write ==> e.write.Armed())
  }

  predicate FdExact(e: FdEvent)
  {
    FdArmed(e) && (!e.et.read ==> e.read.Empty()) && (!e.et.write ==> e.write.Empty())
  }

  /** What every operation keeps. */
  ghost predicate IoInv(io: Io)
  {
    && |io.fds| >= INITIAL_FDS
    && KernelExact(io)
    && io.pending == Sum(io.fds, Bits)
    && forall fd :: 0 <= fd < |io.fds| ==> FdArmed(io.fds[fd])
  }

  /** What every operation except delEvent keeps: a bit is set exactly when its slot is full. */
  ghost predicate SlotsExact(io: Io)
  {
    forall fd :: 0 <= fd < |io.fds| ==> FdExact(io.fds[fd])
  }
}
