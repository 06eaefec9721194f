/** HttpConnectionPool's accounting, with the calls of several clients interleaved at the points where
    they touch the shared list or the shared counter. */
module Pool {
  import opened Counting
  import opened Tasks

  /** `createTime` is the field m_createTime, `madeAt` the time the connection was made; `lends` counts how often
      it has been handed to a client. */
  datatype Conn = Conn(createTime: nat, madeAt: nat, request: nat, lends: nat)

  /** Where a client is in getConnection or ReleasePtr. */
  datatype Client =
    | Away                                                  // holds nothing
    | Popped(invalid: seq<nat>, ptr: Option<nat>)           // out of the critical section of getConnection
    | Cleaned                                               // m_total reduced, nothing usable found
    | Created(conn: nat)                                    // new connection, m_total not yet raised
    | Lent(conn: nat)
    | Returning(conn: nat)                                  // fit for reuse, not yet pushed back
    | Deleted(conn: nat)                                    // deleted, m_total not yet lowered

  /** A connection was released at a time and kept for reuse, or deleted. */
  datatype Released = Released(conn: nat, at: nat, kept: bool)

  /** `gone` are the deleted connections, `log` the releases so far. */
  datatype State = State(
    conns: seq<Conn>,
    idle: seq<nat>,
    total: int,
    clients: seq<Client>,
    gone: seq<nat>,
    log: seq<Released>)

  /** What a call learns about the world: the open sockets and the time. */
  datatype World = World(connected: set<nat>, now: nat)

  function Record(s: State, c: nat): Conn { if c < |s.conns| then s.conns[c] else Conn(0, 0, 0, 0) }

  function Update(s: State, c: nat, r: Conn): State { if c < |s.conns| then s.(conns := s.conns[c := r]) else s }

  predicate Usable(conns: seq<Conn>, c: nat, w: World)
  {
    c in w.connected && (c < |conns| ==> conns[c].createTime < w.now)
  }

  /** How many idle connections the loop of getConnection throws out before it stops. */
  function Unusable(conns: seq<Conn>, idle: seq<nat>, w: World): (k: nat)
    ensures k <= |idle|
    ensures forall i :: 0 <= i < k ==> !Usable(conns, idle[i], w)
    ensures k < |idle| ==> Usable(conns, idle[k], w)
  {
    if idle == [] || Usable(conns, idle[0], w) then 0 else 1 + Unusable(conns, idle[1..], w)
  }

  /** Where the loop stops and what it passes over, in the record's own terms. */
  lemma CutAtUsable(conns: seq<Conn>, idle: seq<nat>, w: World)
    ensures var k := Unusable(conns, idle, w);
            && k <= |idle|
            && (forall i :: 0 <= i < k ==>
                  idle[..k][i] !in w.connected || (idle[i] < |conns| && conns[idle[i]].createTime >= w.now))
            && (k < |idle| ==> idle == idle[..k] + [idle[k]] + idle[k + 1..] && idle[k] in w.connected)
            && (k < |idle| && idle[k] < |conns| ==> conns[idle[k]].createTime < w.now)
            && (k == |idle| ==> idle[..k] == idle)
  {
    var k := Unusable(conns, idle, w);
    forall i | 0 <= i < k
      ensures idle[i] !in w.connected || (idle[i] < |conns| && conns[idle[i]].createTime >= w.now)
    {
      assert !Usable(conns, idle[i], w);
    }
  }

  /** The test in ReleasePtr: the connection must have outlived the limit. */
  predicate FitForReuse(r: Conn, c: nat, w: World, maxAlive: nat, maxRequest: nat)
  {
    c in w.connected && r.createTime + maxAlive < w.now && r.request <= maxRequest
  }

  /** The critical section of getConnection, in place. */
  class Pool {
    var conns: seq<nat>

    constructor () ensures conns == [] { conns := []; }

    method PopUsable(records: seq<Conn>, w: World) returns (invalid: seq<nat>, ptr: Option<nat>)
      modifies this
      ensures var k := Unusable(records, old(conns), w);
              && invalid == old(conns)[..k]
              && ptr == (if k < |old(conns)| then Some(old(conns)[k]) else None)
              && conns == (if k < |old(conns)| then old(conns)[k + 1..] else [])
      ensures invalid <= old(conns)
      ensures forall i :: 0 <= i < |invalid| ==>
        invalid[i] !in w.connected || (invalid[i] < |records| && records[invalid[i]].createTime >= w.now)
      ensures ptr.None? ==> invalid == old(conns) && conns == []
      ensures ptr.Some? ==> old(conns) == invalid + [ptr.value] + conns && ptr.value in w.connected
      ensures ptr.Some? && ptr.value < |records| ==> records[ptr.value].createTime < w.now
    {
      CutAtUsable(records, conns, w);
      invalid, ptr := [], None;
      while conns != []
        invariant ptr.None? && |invalid| <= |old(conns)| && invalid == old(conns)[..|invalid|]
        invariant conns == old(conns)[|invalid|..]
        invariant |invalid| + Unusable(records, conns, w) == Unusable(records, old(conns), w)
        decreases |conns|
      {
        var conn := conns[0];
        conns := conns[1..];
        if conn !in w.connected || (conn < |records| && records[conn].createTime >= w.now) {
          invalid := invalid + [conn];
        } else {
          ptr := Some(conn);
          return;
        }
      }
    }
  }

  // ----- steps

  datatype Action =
    | Pop(i: nat, w: World)
    | Subtract(i: nat)
    | Connect(i: nat, ok: bool, createTime: nat, at: nat)
    | Count(i: nat)
    | Release(i: nat, w: World)
    | Push(i: nat)
    | Lower(i: nat)

  predicate Can(s: State, a: Action)
  {
    a.i < |s.clients| &&
    match a
    case Pop(i, _) => s.clients[i].Away?
    case Subtract(i) => s.clients[i].Popped?
    case Connect(i, _, _, _) => s.clients[i].Cleaned?
    case Count(i) => s.clients[i].Created?
    case Release(i, _) => s.clients[i].Lent?
    case Push(i) => s.clients[i].Returning?
    case Lower(i) => s.clients[i].Deleted?
  }

  function Move(s: State, i: nat, c: Client): State
    requires i < |s.clients|
  {
    s.(clients := s.clients[i := c])
  }

  function Lend(s: State, c: nat): State
  {
    Update(s, c, Record(s, c).(lends := Record(s, c).lends + 1))
  }

  function Do(s: State, a: Action, maxAlive: nat, maxRequest: nat): State
    requires Can(s, a)
  {
    match a
    case Pop(i, w) =>
      var k := Unusable(s.conns, s.idle, w);
      if k < |s.idle| then Move(s.(idle := s.idle[k + 1..]), i, Popped(s.idle[..k], Some(s.idle[k])))
      else Move(s.(idle := []), i, Popped(s.idle, None))
    case Subtract(i) =>
      var Popped(invalid, ptr) := s.clients[i];
      var s1 := s.(gone := s.gone + invalid, total := s.total - |invalid|);
      if ptr.Some? then Move(Lend(s1, ptr.value), i, Lent(ptr.value)) else Move(s1, i, Cleaned)
    case Connect(i, ok, createTime, at) =>
      if ok then Move(s.(conns := s.conns + [Conn(createTime, at, 0, 0)]), i, Created(|s.conns|))
      else Move(s, i, Away)
    case Count(i) =>
      var c := s.clients[i].conn;
      Move(Lend(s.(total := s.total + 1), c), i, Lent(c))
    case Release(i, w) =>
      var c := s.clients[i].conn;
      var r := Record(s, c).(request := Record(s, c).request + 1);
      var fit := FitForReuse(r, c, w, maxAlive, maxRequest);
      var s1 := Update(s, c, r).(log := s.log + [Released(c, w.now, fit)]);
      if fit then Move(s1, i, Returning(c)) else Move(s1.(gone := s.gone + [c]), i, Deleted(c))
    case Push(i) => Move(s.(idle := s.idle + [s.clients[i].conn]), i, Away)
    case Lower(i) => Move(s.(total := s.total - 1), i, Away)
  }

  // ----- the invariant

  function Is(c: nat): nat -> nat { (x: nat) => if x == c then 1 else 0 }

  /** Does the client have this connection in hand? */
  function HasWeight(c: nat, cl: Client): nat
  {
    match cl
    case Popped(invalid, ptr) => Sum(invalid, Is(c)) + if ptr == Some(c) then 1 else 0
    case Created(x) => if x == c then 1 else 0
    case Lent(x) => if x == c then 1 else 0
    case Returning(x) => if x == c then 1 else 0
    case _ => 0
  }

  function Has(c: nat): Client -> nat { (cl: Client) => HasWeight(c, cl) }

  /** How many connections the client holds that m_total still counts. */
  function CountedWeight(cl: Client): nat
  {
    match cl
    case Popped(invalid, ptr) => |invalid| + if ptr.Some? then 1 else 0
    case Lent(_) => 1
    case Returning(_) => 1
    case Deleted(_) => 1
    case _ => 0
  }

  function Counted(): Client -> nat { (cl: Client) => CountedWeight(cl) }

  /** Every connection made is idle, in one client's hands, or gone. */
  ghost predicate PlaceOk(s: State, c: nat)
  {
    Sum(s.idle, Is(c)) + Sum(s.clients, Has(c)) + Sum(s.gone, Is(c)) == if c < |s.conns| then 1 else 0
  }

  ghost predicate RequestsOk(s: State, maxRequest: nat)
  {
    && (forall i :: 0 <= i < |s.idle| ==> Rested(Record(s, s.idle[i]), maxRequest))
    && (forall i :: 0 <= i < |s.clients| ==> HandsOk(s, s.clients[i], maxRequest))
    && (forall c :: 0 <= c < |s.conns| ==> s.conns[c].lends <= maxRequest + 1)
  }

  /** Returned as often as lent, and allowed one more. */
  predicate Rested(r: Conn, maxRequest: nat) { r.lends == r.request <= maxRequest }

  predicate HandsOk(s: State, cl: Client, maxRequest: nat)
  {
    match cl
    case Popped(_, ptr) => ptr.Some? ==> Rested(Record(s, ptr.value), maxRequest)
    case Created(c) => Rested(Record(s, c), maxRequest)
    case Lent(c) => Record(s, c).lends == Record(s, c).request + 1 <= maxRequest + 1
    case Returning(c) => Rested(Record(s, c), maxRequest)
    case _ => true
  }

  ghost predicate Inv(s: State, maxRequest: nat)
  {
    && (forall c: nat :: PlaceOk(s, c))
    && s.total == |s.idle| + Sum(s.clients, Counted())
    && RequestsOk(s, maxRequest)
  }

  /** What client `i` has in hand is nowhere else. */
  lemma InOneHand(s: State, i: nat, c: nat)
    requires PlaceOk(s, c) && i < |s.clients| && HasWeight(c, s.clients[i]) >= 1
    ensures c < |s.conns| && HasWeight(c, s.clients[i]) == 1
    ensures forall j :: 0 <= j < |s.clients| && j != i ==> HasWeight(c, s.clients[j]) == 0
    ensures forall j :: 0 <= j < |s.idle| ==> s.idle[j] != c
  {
    SumAt(s.clients, i, Has(c));
    forall j | 0 <= j < |s.clients| && j != i ensures HasWeight(c, s.clients[j]) == 0 {
      SumTwo(s.clients, if i < j then i else j, if i < j then j else i, Has(c));
    }
    forall j | 0 <= j < |s.idle| ensures s.idle[j] != c {
      SumAt(s.idle, j, Is(c));
    }
  }

  /** A client moves on and one connection it has in hand gets a new record. */
  lemma RecordStep(s: State, s': State, i: nat, c: nat, maxRequest: nat)
    requires Inv(s, maxRequest) && i < |s.clients| && HasWeight(c, s.clients[i]) >= 1
    requires c < |s.conns| == |s'.conns| && s'.conns == s.conns[c := s'.conns[c]] && s'.idle == s.idle
    requires |s'.clients| == |s.clients| && s'.clients == s.clients[i := s'.clients[i]]
    requires HandsOk(s', s'.clients[i], maxRequest)
    requires s'.conns[c].lends <= maxRequest + 1
    ensures RequestsOk(s', maxRequest)
  {
    assert PlaceOk(s, c);
    InOneHand(s, i, c);
    forall j | 0 <= j < |s'.clients| ensures HandsOk(s', s'.clients[j], maxRequest) {
      assert HandsOk(s, s.clients[j], maxRequest);
    }
  }

  /** A client moves on, and what leaves its hands is gone. */
  lemma PlaceStep(s: State, s': State, i: nat, g: seq<nat>, c: nat)
    requires PlaceOk(s, c) && i < |s.clients| == |s'.clients| && s'.clients == s.clients[i := s'.clients[i]]
    requires |s'.conns| == |s.conns| && s'.idle == s.idle && s'.gone == s.gone + g
    requires HasWeight(c, s'.clients[i]) + Sum(g, Is(c)) == HasWeight(c, s.clients[i])
    ensures PlaceOk(s', c)
  {
    SumUpdate(s.clients, i, s'.clients[i], Has(c));
    SumAppend(s.gone, g, Is(c));
  }

  lemma PopKeepsPlaces(s: State, a: Action, maxAlive: nat, maxRequest: nat)
    requires Inv(s, maxRequest) && Can(s, a) && a.Pop?
    ensures var s' := Do(s, a, maxAlive, maxRequest);
            s'.total == |s'.idle| + Sum(s'.clients, Counted()) && forall c: nat :: PlaceOk(s', c)
  {
    var s', k := Do(s, a, maxAlive, maxRequest), Unusable(s.conns, s.idle, a.w);
    SumUpdate(s.clients, a.i, s'.clients[a.i], Counted());
    forall c: nat ensures PlaceOk(s', c) {
      assert PlaceOk(s, c);
      SumUpdate(s.clients, a.i, s'.clients[a.i], Has(c));
      if k < |s.idle| {
        SumSplit(s.idle, k, Is(c));
      }
    }
  }

  lemma PopKeeps(s: State, a: Action, maxAlive: nat, maxRequest: nat)
    requires Inv(s, maxRequest) && Can(s, a) && a.Pop?
    ensures Inv(Do(s, a, maxAlive, maxRequest), maxRequest)
  {
    var s' := Do(s, a, maxAlive, maxRequest);
    PopKeepsPlaces(s, a, maxAlive, maxRequest);
    forall j | 0 <= j < |s'.clients| ensures HandsOk(s', s'.clients[j], maxRequest) {
      assert HandsOk(s, s.clients[j], maxRequest);
    }
  }

  lemma SubtractKeepsPlaces(s: State, a: Action, maxAlive: nat, maxRequest: nat)
    requires Inv(s, maxRequest) && Can(s, a) && a.Subtract?
    ensures var s' := Do(s, a, maxAlive, maxRequest);
            s'.total == |s'.idle| + Sum(s'.clients, Counted()) && forall c: nat :: PlaceOk(s', c)
  {
    var s' := Do(s, a, maxAlive, maxRequest);
    SumUpdate(s.clients, a.i, s'.clients[a.i], Counted());
    forall c: nat ensures PlaceOk(s', c) {
      assert PlaceOk(s, c);
      PlaceStep(s, s', a.i, s.clients[a.i].invalid, c);
    }
  }

  lemma SubtractKeeps(s: State, a: Action, maxAlive: nat, maxRequest: nat)
    requires Inv(s, maxRequest) && Can(s, a) && a.Subtract?
    ensures Inv(Do(s, a, maxAlive, maxRequest), maxRequest)
  {
    var s', cl := Do(s, a, maxAlive, maxRequest), s.clients[a.i];
    SubtractKeepsPlaces(s, a, maxAlive, maxRequest);
    if cl.ptr.Some? {
      assert HandsOk(s, cl, maxRequest) && PlaceOk(s, cl.ptr.value);
      InOneHand(s, a.i, cl.ptr.value);
      RecordStep(s, s', a.i, cl.ptr.value, maxRequest);
    } else {
      forall j | 0 <= j < |s'.clients| ensures HandsOk(s', s'.clients[j], maxRequest) {
        assert HandsOk(s, s.clients[j], maxRequest);
      }
    }
  }

  lemma ConnectKeeps(s: State, a: Action, maxAlive: nat, maxRequest: nat)
    requires Inv(s, maxRequest) && Can(s, a) && a.Connect?
    ensures Inv(Do(s, a, maxAlive, maxRequest), maxRequest)
  {
    var s' := Do(s, a, maxAlive, maxRequest);
    SumUpdate(s.clients, a.i, s'.clients[a.i], Counted());
    forall c: nat ensures PlaceOk(s', c) {
      assert PlaceOk(s, c);
      SumUpdate(s.clients, a.i, s'.clients[a.i], Has(c));
    }
    forall j | 0 <= j < |s.idle| ensures s.idle[j] < |s.conns| {
      assert PlaceOk(s, s.idle[j]);
      SumAt(s.idle, j, Is(s.idle[j]));
    }
    forall j | 0 <= j < |s'.clients| ensures HandsOk(s', s'.clients[j], maxRequest) {
      assert HandsOk(s, s.clients[j], maxRequest);
      if s.clients[j].Lent? || s.clients[j].Created? || s.clients[j].Returning? {
        assert PlaceOk(s, s.clients[j].conn);
        InOneHand(s, j, s.clients[j].conn);
      } else if s.clients[j].Popped? && s.clients[j].ptr.Some? {
        assert PlaceOk(s, s.clients[j].ptr.value);
        InOneHand(s, j, s.clients[j].ptr.value);
      }
    }
  }

  lemma CountKeeps(s: State, a: Action, maxAlive: nat, maxRequest: nat)
    requires Inv(s, maxRequest) && Can(s, a) && a.Count?
    ensures Inv(Do(s, a, maxAlive, maxRequest), maxRequest)
  {
    var s', x := Do(s, a, maxAlive, maxRequest), s.clients[a.i].conn;
    SumUpdate(s.clients, a.i, s'.clients[a.i], Counted());
    forall c: nat ensures PlaceOk(s', c) {
      assert PlaceOk(s, c);
      SumUpdate(s.clients, a.i, s'.clients[a.i], Has(c));
    }
    assert HandsOk(s, s.clients[a.i], maxRequest) && PlaceOk(s, x);
    InOneHand(s, a.i, x);
    RecordStep(s, s', a.i, x, maxRequest);
  }

  lemma ReleaseKeepsPlaces(s: State, a: Action, maxAlive: nat, maxRequest: nat)
    requires Inv(s, maxRequest) && Can(s, a) && a.Release?
    ensures var s' := Do(s, a, maxAlive, maxRequest);
            s'.total == |s'.idle| + Sum(s'.clients, Counted()) && forall c: nat :: PlaceOk(s', c)
  {
    var s', x := Do(s, a, maxAlive, maxRequest), s.clients[a.i].conn;
    SumUpdate(s.clients, a.i, s'.clients[a.i], Counted());
    forall c: nat ensures PlaceOk(s', c) {
      assert PlaceOk(s, c);
      SumOne(x, Is(c));
      PlaceStep(s, s', a.i, if s'.clients[a.i].Deleted? then [x] else [], c);
    }
  }

  lemma ReleaseKeeps(s: State, a: Action, maxAlive: nat, maxRequest: nat)
    requires Inv(s, maxRequest) && Can(s, a) && a.Release?
    ensures Inv(Do(s, a, maxAlive, maxRequest), maxRequest)
  {
    ReleaseKeepsPlaces(s, a, maxAlive, maxRequest);
    var x := s.clients[a.i].conn;
    assert HandsOk(s, s.clients[a.i], maxRequest) && PlaceOk(s, x);
    InOneHand(s, a.i, x);
    RecordStep(s, Do(s, a, maxAlive, maxRequest), a.i, x, maxRequest);
  }

  lemma PushOrLowerKeeps(s: State, a: Action, maxAlive: nat, maxRequest: nat)
    requires Inv(s, maxRequest) && Can(s, a) && (a.Push? || a.Lower?)
    ensures Inv(Do(s, a, maxAlive, maxRequest), maxRequest)
  {
    var s', x := Do(s, a, maxAlive, maxRequest), s.clients[a.i].conn;
    SumUpdate(s.clients, a.i, s'.clients[a.i], Counted());
    forall c: nat ensures PlaceOk(s', c) {
      assert PlaceOk(s, c);
      SumUpdate(s.clients, a.i, s'.clients[a.i], Has(c));
      SumSnoc(s.idle, x, Is(c));
    }
    assert HandsOk(s, s.clients[a.i], maxRequest);
    forall j | 0 <= j < |s'.clients| ensures HandsOk(s', s'.clients[j], maxRequest) {
      assert HandsOk(s, s.clients[j], maxRequest);
    }
  }

  lemma StepKeeps(s: State, a: Action, maxAlive: nat, maxRequest: nat)
    requires Inv(s, maxRequest) && Can(s, a)
    ensures Inv(Do(s, a, maxAlive, maxRequest), maxRequest)
  {
    match a
    case Pop(_, _) => PopKeeps(s, a, maxAlive, maxRequest);
    case Subtract(_) => SubtractKeeps(s, a, maxAlive, maxRequest);
    case Connect(_, _, _, _) => ConnectKeeps(s, a, maxAlive, maxRequest);
    case Count(_) => CountKeeps(s, a, maxAlive, maxRequest);
    case Release(_, _) => ReleaseKeeps(s, a, maxAlive, maxRequest);
    case Push(_) => PushOrLowerKeeps(s, a, maxAlive, maxRequest);
    case Lower(_) => PushOrLowerKeeps(s, a, maxAlive, maxRequest);
  }

  // ----- runs

  predicate ValidRun(s: State, run: seq<Action>, maxAlive: nat, maxRequest: nat)
    decreases |run|
  {
    run == [] || (Can(s, run[0]) && ValidRun(Do(s, run[0], maxAlive, maxRequest), run[1..], maxAlive, maxRequest))
  }

  function After(s: State, run: seq<Action>, maxAlive: nat, maxRequest: nat): State
    requires ValidRun(s, run, maxAlive, maxRequest)
    decreases |run|
  {
    if run == [] then s else After(Do(s, run[0], maxAlive, maxRequest), run[1..], maxAlive, maxRequest)
  }

  function Initial(clients: nat): State { State([], [], 0, seq(clients, _ => Away), [], []) }

  lemma InitialInv(clients: nat, maxRequest: nat)
    ensures Inv(Initial(clients), maxRequest)
  {
    SumZero(Initial(clients).clients, Counted());
    forall c: nat ensures PlaceOk(Initial(clients), c) {
      SumZero(Initial(clients).clients, Has(c));
    }
  }

  lemma {:induction false} RunKeeps(s: State, run: seq<Action>, maxAlive: nat, maxRequest: nat)
    requires Inv(s, maxRequest) && ValidRun(s, run, maxAlive, maxRequest)
    ensures Inv(After(s, run, maxAlive, maxRequest), maxRequest)
    decreases |run|
  {
    if run != [] {
      StepKeeps(s, run[0], maxAlive, maxRequest);
      RunKeeps(Do(s, run[0], maxAlive, maxRequest), run[1..], maxAlive, maxRequest);
    }
  }

  function IsLent(): Client -> nat { (cl: Client) => if cl.Lent? then 1 else 0 }

  /** Over every run: m_total is the number of idle connections plus those that clients hold and have not
      yet discounted, so it never underflows, and when no call is in progress it is idle plus lent; each
      connection is in exactly one of idle, one client's hands, or gone; and none is lent more than
      maxRequest + 1 times. */
  lemma PoolAccounting(clients: nat, run: seq<Action>, maxAlive: nat, maxRequest: nat)
    requires ValidRun(Initial(clients), run, maxAlive, maxRequest)
    ensures var s := After(Initial(clients), run, maxAlive, maxRequest);
            && s.total == |s.idle| + Sum(s.clients, Counted()) >= |s.idle|
            && ((forall i :: 0 <= i < |s.clients| ==> s.clients[i].Away? || s.clients[i].Lent?) ==>
                  s.total == |s.idle| + Sum(s.clients, IsLent()))
            && (forall c :: 0 <= c < |s.conns| ==> PlaceOk(s, c) && s.conns[c].lends <= maxRequest + 1)
  {
    InitialInv(clients, maxRequest);
    RunKeeps(Initial(clients), run, maxAlive, maxRequest);
    var s := After(Initial(clients), run, maxAlive, maxRequest);
    if forall i :: 0 <= i < |s.clients| ==> s.clients[i].Away? || s.clients[i].Lent? {
      SumPointwise(s.clients, Counted(), s.clients, IsLent());
    }
  }

  // ----- what is lent

  /** The critical section of getConnection: what comes before the first open connection that is not from the future
      is set aside, that one is taken, and the others stay. */
  lemma PopExactly(s: State, i: nat, w: World, maxAlive: nat, maxRequest: nat)
    requires Inv(s, maxRequest) && Can(s, Pop(i, w))
    ensures var s' := Do(s, Pop(i, w), maxAlive, maxRequest);
            && s' == s.(idle := s'.idle, clients := s.clients[i := s'.clients[i]]) && s'.clients[i].Popped?
            && var Popped(invalid, ptr) := s'.clients[i];
               && (forall j :: 0 <= j < |invalid| ==>
                     invalid[j] < |s.conns| && (invalid[j] !in w.connected || s.conns[invalid[j]].createTime >= w.now))
               && (ptr.None? ==> s.idle == invalid && s'.idle == [])
               && (ptr.Some? ==> s.idle == invalid + [ptr.value] + s'.idle && ptr.value < |s.conns|
                                 && ptr.value in w.connected && s.conns[ptr.value].createTime < w.now)
  {
    CutAtUsable(s.conns, s.idle, w);
    forall j | 0 <= j < |s.idle| ensures s.idle[j] < |s.conns| {
      assert PlaceOk(s, s.idle[j]);
      SumAt(s.idle, j, Is(s.idle[j]));
    }
  }

  /** A failed connect lends nothing and counts nothing; a successful one makes one connection, which is counted and
      lent next. */
  lemma ConnectExactly(s: State, i: nat, ok: bool, createTime: nat, at: nat, maxAlive: nat, maxRequest: nat)
    requires Can(s, Connect(i, ok, createTime, at))
    ensures var s' := Do(s, Connect(i, ok, createTime, at), maxAlive, maxRequest);
            && s'.total == s.total && s'.idle == s.idle && s'.gone == s.gone
            && (!ok ==> s' == s.(clients := s.clients[i := Away]))
            && (ok ==> s'.conns == s.conns + [Conn(createTime, at, 0, 0)])
            && (ok ==> Can(s', Count(i))
                       && var s'' := Do(s', Count(i), maxAlive, maxRequest);
                          s''.clients == s.clients[i := Lent(|s.conns|)] && s''.total == s.total + 1)
  {
  }

  /** What was set aside is deleted and no longer counted, and what was taken is lent; if nothing was, the client goes
      on to connect. */
  lemma SubtractExactly(s: State, i: nat, maxAlive: nat, maxRequest: nat)
    requires Inv(s, maxRequest) && Can(s, Subtract(i))
    ensures var s', Popped(invalid, ptr) := Do(s, Subtract(i), maxAlive, maxRequest), s.clients[i];
            && s'.gone == s.gone + invalid && s'.total == s.total - |invalid| && s'.idle == s.idle && s'.log == s.log
            && (ptr.None? ==> s'.clients == s.clients[i := Cleaned] && s'.conns == s.conns)
            && (ptr.Some? ==>
                  && s'.clients == s.clients[i := Lent(ptr.value)] && ptr.value < |s.conns|
                  && s'.conns == s.conns[ptr.value := s.conns[ptr.value].(lends := s.conns[ptr.value].lends + 1)])
  {
    var ptr := s.clients[i].ptr;
    if ptr.Some? {
      assert PlaceOk(s, ptr.value);
      InOneHand(s, i, ptr.value);
    }
  }

  /** Client `i` last popped connection `c`, and found it open then. */
  ghost predicate OpenWhenPopped(hist: seq<Action>, i: nat, c: nat)
  {
    exists k :: 0 <= k < |hist| && hist[k].Pop? && hist[k].i == i && c in hist[k].w.connected
        && forall j :: k < j < |hist| ==> hist[j].i != i
  }

  ghost predicate PoppedOpen(s: State, hist: seq<Action>)
  {
    forall i :: 0 <= i < |s.clients| && s.clients[i].Popped? && s.clients[i].ptr.Some? ==>
      OpenWhenPopped(hist, i, s.clients[i].ptr.value)
  }

  lemma PopKeepsOpen(s: State, hist: seq<Action>, a: Action, maxAlive: nat, maxRequest: nat, i: nat)
    requires Inv(s, maxRequest) && PoppedOpen(s, hist) && Can(s, a)
    requires var s' := Do(s, a, maxAlive, maxRequest);
             i < |s'.clients| && s'.clients[i].Popped? && s'.clients[i].ptr.Some?
    ensures OpenWhenPopped(hist + [a], i, Do(s, a, maxAlive, maxRequest).clients[i].ptr.value)
  {
    var s', hist' := Do(s, a, maxAlive, maxRequest), hist + [a];
    if a.i == i {
      PopExactly(s, i, a.w, maxAlive, maxRequest);
      assert hist'[|hist|] == a;
    } else {
      StepShape(s, a, maxAlive, maxRequest);
      var k :| 0 <= k < |hist| && hist[k].Pop? && hist[k].i == i && s.clients[i].ptr.value in hist[k].w.connected
          && forall j :: k < j < |hist| ==> hist[j].i != i;
      assert hist'[k] == hist[k];
    }
  }

  lemma {:induction false} RunKeepsOpen(s: State, hist: seq<Action>, run: seq<Action>, maxAlive: nat, maxRequest: nat)
    requires Inv(s, maxRequest) && PoppedOpen(s, hist) && ValidRun(s, run, maxAlive, maxRequest)
    ensures PoppedOpen(After(s, run, maxAlive, maxRequest), hist + run)
    decreases |run|
  {
    if run == [] {
      assert hist + run == hist;
    } else {
      var s' := Do(s, run[0], maxAlive, maxRequest);
      forall i | 0 <= i < |s'.clients| && s'.clients[i].Popped? && s'.clients[i].ptr.Some?
        ensures OpenWhenPopped(hist + [run[0]], i, s'.clients[i].ptr.value)
      {
        PopKeepsOpen(s, hist, run[0], maxAlive, maxRequest, i);
      }
      StepKeeps(s, run[0], maxAlive, maxRequest);
      RunKeepsOpen(s', hist + [run[0]], run[1..], maxAlive, maxRequest);
      assert hist + [run[0]] + run[1..] == hist + run;
    }
  }

  /** Over every run: an idle connection that is lent was open when the client took it from the list. */
  lemma LentWasOpen(clients: nat, run: seq<Action>, maxAlive: nat, maxRequest: nat, i: nat)
    requires ValidRun(Initial(clients), run, maxAlive, maxRequest)
    requires var s := After(Initial(clients), run, maxAlive, maxRequest);
             && Can(s, Subtract(i)) && Do(s, Subtract(i), maxAlive, maxRequest).clients[i].Lent?
    ensures var s := After(Initial(clients), run, maxAlive, maxRequest);
            OpenWhenPopped(run, i, Do(s, Subtract(i), maxAlive, maxRequest).clients[i].conn)
  {
    InitialInv(clients, maxRequest);
    RunKeepsOpen(Initial(clients), [], run, maxAlive, maxRequest);
    assert [] + run == run;
  }

  // ----- what is kept and what is deleted

  /** The client's two steps of ReleasePtr. */
  function ReleaseAll(s: State, i: nat, w: World, maxAlive: nat, maxRequest: nat): State
    requires Can(s, Release(i, w))
  {
    var s1 := Do(s, Release(i, w), maxAlive, maxRequest);
    Do(s1, if s1.clients[i].Returning? then Push(i) else Lower(i), maxAlive, maxRequest)
  }

  /** A released connection goes back to the idle ones if and only if it is open, has outlived the alive-time
      limit, and was not used too often; otherwise it is deleted and m_total lowered. */
  lemma ReleaseExactly(s: State, i: nat, w: World, maxAlive: nat, maxRequest: nat)
    requires Inv(s, maxRequest) && Can(s, Release(i, w))
    ensures var s', c := ReleaseAll(s, i, w, maxAlive, maxRequest), s.clients[i].conn;
            && c < |s.conns|
            && (c in s'.idle <==>
                  c in w.connected && s.conns[c].createTime + maxAlive < w.now && s.conns[c].request < maxRequest)
            && (c in s'.gone <==> c !in s'.idle)
            && s'.total == s.total - (if c in s'.idle then 0 else 1)
            && s'.idle == (if c in s'.idle then s.idle + [c] else s.idle)
            && s'.gone == (if c in s'.idle then s.gone else s.gone + [c])
            && s'.conns == s.conns[c := s.conns[c].(request := s.conns[c].request + 1)]
            && s'.clients == s.clients[i := Away] && s'.log == s.log + [Released(c, w.now, c in s'.idle)]
  {
    var c := s.clients[i].conn;
    assert PlaceOk(s, c);
    InOneHand(s, i, c);
    NotGone(s, i, c);
  }

  lemma NotGone(s: State, i: nat, c: nat)
    requires PlaceOk(s, c) && i < |s.clients| && HasWeight(c, s.clients[i]) >= 1
    ensures c !in s.gone
  {
    SumAt(s.clients, i, Has(c));
    if c in s.gone {
      var j :| 0 <= j < |s.gone| && s.gone[j] == c;
      SumAt(s.gone, j, Is(c));
    }
  }

  /** So an open connection that is still within its limit is deleted, however little it was used. */
  lemma YoungConnectionIsDeleted(s: State, i: nat, w: World, maxAlive: nat, maxRequest: nat)
    requires Inv(s, maxRequest) && Can(s, Release(i, w))
    requires var c := s.clients[i].conn;
             c in w.connected && Record(s, c).createTime + maxAlive >= w.now
    ensures s.clients[i].conn in ReleaseAll(s, i, w, maxAlive, maxRequest).gone
  {
    ReleaseExactly(s, i, w, maxAlive, maxRequest);
  }

  /** The connection had outlived its limit when it was last kept. */
  ghost predicate Outlived(s: State, c: nat, maxAlive: nat)
  {
    exists i :: 0 <= i < |s.log| && s.log[i].kept && s.log[i].conn == c
        && Record(s, c).createTime + maxAlive < s.log[i].at
  }

  ghost predicate AgesOk(s: State, maxAlive: nat)
  {
    && (forall j :: 0 <= j < |s.idle| ==> s.idle[j] < |s.conns| && Outlived(s, s.idle[j], maxAlive))
    && (forall i :: 0 <= i < |s.clients| && s.clients[i].Returning? ==>
          s.clients[i].conn < |s.conns| && Outlived(s, s.clients[i].conn, maxAlive))
  }

  lemma OutlivedStays(s: State, s': State, c: nat, maxAlive: nat)
    requires Outlived(s, c, maxAlive) && s.log <= s'.log && c < |s.conns| <= |s'.conns|
    requires s'.conns[c].createTime == s.conns[c].createTime
    ensures Outlived(s', c, maxAlive)
  {
    var i :| 0 <= i < |s.log| && s.log[i].kept && s.log[i].conn == c
        && Record(s, c).createTime + maxAlive < s.log[i].at;
    assert s'.log[i] == s.log[i];
  }

  /** Releases are only added, and creation times stay. */
  lemma StepShape(s: State, a: Action, maxAlive: nat, maxRequest: nat)
    requires Can(s, a)
    ensures var s' := Do(s, a, maxAlive, maxRequest);
            && s.log <= s'.log && |s.conns| <= |s'.conns| && |s'.clients| == |s.clients|
            && (forall c :: 0 <= c < |s.conns| ==> s'.conns[c].createTime == s.conns[c].createTime)
            && (forall i :: 0 <= i < |s.clients| && i != a.i ==> s'.clients[i] == s.clients[i])
            && (s'.clients[a.i].Returning? ==> a.Release? && s'.clients[a.i].conn == s.clients[a.i].conn)
            && (forall j :: 0 <= j < |s'.idle| ==>
                s'.idle[j] in s.idle || (a.Push? && s'.idle[j] == s.clients[a.i].conn))
  {
  }

  lemma StepKeepsAges(s: State, a: Action, maxAlive: nat, maxRequest: nat)
    requires Inv(s, maxRequest) && AgesOk(s, maxAlive) && Can(s, a)
    ensures AgesOk(Do(s, a, maxAlive, maxRequest), maxAlive)
  {
    var s' := Do(s, a, maxAlive, maxRequest);
    StepShape(s, a, maxAlive, maxRequest);
    forall j | 0 <= j < |s'.idle| ensures s'.idle[j] < |s'.conns| && Outlived(s', s'.idle[j], maxAlive) {
      OutlivedStays(s, s', s'.idle[j], maxAlive);
    }
    forall i | 0 <= i < |s'.clients| && s'.clients[i].Returning?
      ensures s'.clients[i].conn < |s'.conns| && Outlived(s', s'.clients[i].conn, maxAlive)
    {
      if i == a.i {
        ReleasedOutlived(s, a, maxAlive, maxRequest);
      } else {
        OutlivedStays(s, s', s'.clients[i].conn, maxAlive);
      }
    }
  }

  lemma ReleasedOutlived(s: State, a: Action, maxAlive: nat, maxRequest: nat)
    requires Inv(s, maxRequest) && Can(s, a) && a.Release? && Do(s, a, maxAlive, maxRequest).clients[a.i].Returning?
    ensures var s', c := Do(s, a, maxAlive, maxRequest), s.clients[a.i].conn;
            c < |s'.conns| && Outlived(s', c, maxAlive)
  {
    var s', c := Do(s, a, maxAlive, maxRequest), s.clients[a.i].conn;
    assert PlaceOk(s, c);
    InOneHand(s, a.i, c);
    assert s'.log[|s.log|] == Released(c, a.w.now, true);
  }

  lemma {:induction false} RunKeepsAges(s: State, run: seq<Action>, maxAlive: nat, maxRequest: nat)
    requires Inv(s, maxRequest) && AgesOk(s, maxAlive) && ValidRun(s, run, maxAlive, maxRequest)
    ensures AgesOk(After(s, run, maxAlive, maxRequest), maxAlive)
    decreases |run|
  {
    if run != [] {
      StepKeeps(s, run[0], maxAlive, maxRequest);
      StepKeepsAges(s, run[0], maxAlive, maxRequest);
      RunKeepsAges(Do(s, run[0], maxAlive, maxRequest), run[1..], maxAlive, maxRequest);
    }
  }

  /** Over every run, every idle connection had outlived the alive-time limit when it was returned. */
  lemma IdleConnectionsOutlivedTheirLimit(clients: nat, run: seq<Action>, maxAlive: nat, maxRequest: nat, j: nat)
    requires ValidRun(Initial(clients), run, maxAlive, maxRequest)
    requires j < |After(Initial(clients), run, maxAlive, maxRequest).idle|
    ensures var s := After(Initial(clients), run, maxAlive, maxRequest);
            Outlived(s, s.idle[j], maxAlive)
  {
    InitialInv(clients, maxRequest);
    RunKeepsAges(Initial(clients), run, maxAlive, maxRequest);
  }

  // ----- the creation time as the source leaves it

  /** m_createTime is never set, so it is 0. */
  predicate AsMade(a: Action) { a.Connect? ==> a.createTime == 0 }

  lemma {:induction false} CreateTimesAreZero(s: State, run: seq<Action>, maxAlive: nat, maxRequest: nat)
    requires ValidRun(s, run, maxAlive, maxRequest) && forall i :: 0 <= i < |run| ==> AsMade(run[i])
    requires forall c :: 0 <= c < |s.conns| ==> s.conns[c].createTime == 0
    ensures forall c :: 0 <= c < |After(s, run, maxAlive, maxRequest).conns| ==>
      After(s, run, maxAlive, maxRequest).conns[c].createTime == 0
    decreases |run|
  {
    if run != [] {
      StepShape(s, run[0], maxAlive, maxRequest);
      CreateTimesAreZero(Do(s, run[0], maxAlive, maxRequest), run[1..], maxAlive, maxRequest);
    }
  }

  /** Then, over every run, age never matters: once the clock has passed the limit itself, an open connection
      is kept exactly if it was not used too often, and every open idle connection is usable. */
  lemma AgeNeverMatters(clients: nat, run: seq<Action>, maxAlive: nat, maxRequest: nat, i: nat, w: World)
    requires ValidRun(Initial(clients), run, maxAlive, maxRequest) && forall k :: 0 <= k < |run| ==> AsMade(run[k])
    requires Can(After(Initial(clients), run, maxAlive, maxRequest), Release(i, w)) && maxAlive < w.now
    ensures var s := After(Initial(clients), run, maxAlive, maxRequest);
            var c := s.clients[i].conn;
            && (c in ReleaseAll(s, i, w, maxAlive, maxRequest).idle <==>
                  c in w.connected && Record(s, c).request < maxRequest)
            && (forall d :: 0 <= d < |s.conns| && d in w.connected ==> Usable(s.conns, d, w))
  {
    InitialInv(clients, maxRequest);
    RunKeeps(Initial(clients), run, maxAlive, maxRequest);
    CreateTimesAreZero(Initial(clients), run, maxAlive, maxRequest);
    ReleaseExactly(After(Initial(clients), run, maxAlive, maxRequest), i, w, maxAlive, maxRequest);
  }

  /** What ReleasePtr's limit is for fails for every limit and every age beyond it: a connection made at `made`
      and released at `at`, older than the limit, is kept and lent again at any later time. */
  lemma OldConnectionIsLentAgain(maxAlive: nat, maxRequest: nat, made: nat, at: nat, again: nat)
    returns (run: seq<Action>)
    requires maxRequest > 0 && made + maxAlive < at <= again
    ensures ValidRun(Initial(1), run, maxAlive, maxRequest) && forall k :: 0 <= k < |run| ==> AsMade(run[k])
    ensures var s := After(Initial(1), run, maxAlive, maxRequest);
            && s.clients == [Lent(0)] && s.conns == [Conn(0, made, 1, 2)] && s.log == [Released(0, at, true)]
  {
    var s := State([Conn(0, made, 0, 1)], [], 1, [Lent(0)], [], []);
    run := LendAgain(s, maxAlive, maxRequest, made, at, again);
    run := MakeAndLend(s, run, maxAlive, maxRequest, made);
  }

  /** A first client makes a connection and gets it. */
  lemma MakeAndLend(s: State, run: seq<Action>, maxAlive: nat, maxRequest: nat, made: nat) returns (run': seq<Action>)
    requires s == State([Conn(0, made, 0, 1)], [], 1, [Lent(0)], [], []) && ValidRun(s, run, maxAlive, maxRequest)
    requires forall k :: 0 <= k < |run| ==> AsMade(run[k])
    ensures ValidRun(Initial(1), run', maxAlive, maxRequest) && forall k :: 0 <= k < |run'| ==> AsMade(run'[k])
    ensures After(Initial(1), run', maxAlive, maxRequest) == After(s, run, maxAlive, maxRequest)
  {
    var w := World({}, made);
    var s0 := Initial(1);
    var s1 := Do(s0, Pop(0, w), maxAlive, maxRequest);
    var s2 := Do(s1, Subtract(0), maxAlive, maxRequest);
    var s3 := Do(s2, Connect(0, true, 0, made), maxAlive, maxRequest);
    assert Do(s3, Count(0), maxAlive, maxRequest) == s;
    run' := [Count(0)] + run;
    RunStep(s3, Count(0), run, maxAlive, maxRequest);
    RunStep(s2, Connect(0, true, 0, made), run', maxAlive, maxRequest);
    run' := [Connect(0, true, 0, made)] + run';
    RunStep(s1, Subtract(0), run', maxAlive, maxRequest);
    run' := [Subtract(0)] + run';
    RunStep(s0, Pop(0, w), run', maxAlive, maxRequest);
    run' := [Pop(0, w)] + run';
  }

  /** It is released, kept, and taken again. */
  lemma LendAgain(s: State, maxAlive: nat, maxRequest: nat, made: nat, at: nat, again: nat) returns (run: seq<Action>)
    requires s == State([Conn(0, made, 0, 1)], [], 1, [Lent(0)], [], []) && maxRequest > 0
    requires made + maxAlive < at <= again
    ensures ValidRun(s, run, maxAlive, maxRequest) && forall k :: 0 <= k < |run| ==> AsMade(run[k])
    ensures var s' := After(s, run, maxAlive, maxRequest);
            && s'.clients == [Lent(0)] && s'.conns == [Conn(0, made, 1, 2)] && s'.log == [Released(0, at, true)]
  {
    var w, w' := World({0}, at), World({0}, again);
    var s1 := Do(s, Release(0, w), maxAlive, maxRequest);
    var s2 := Do(s1, Push(0), maxAlive, maxRequest);
    assert s2.idle == [0];
    var s3 := Do(s2, Pop(0, w'), maxAlive, maxRequest);
    var s4 := Do(s3, Subtract(0), maxAlive, maxRequest);
    assert s4.clients == [Lent(0)] && s4.conns == [Conn(0, made, 1, 2)];
    RunStep(s3, Subtract(0), [], maxAlive, maxRequest);
    run := [Subtract(0)];
    RunStep(s2, Pop(0, w'), run, maxAlive, maxRequest);
    run := [Pop(0, w')] + run;
    RunStep(s1, Push(0), run, maxAlive, maxRequest);
    run := [Push(0)] + run;
    RunStep(s, Release(0, w), run, maxAlive, maxRequest);
    run := [Release(0, w)] + run;
  }

  lemma RunStep(s: State, a: Action, run: seq<Action>, maxAlive: nat, maxRequest: nat)
    requires Can(s, a) && ValidRun(Do(s, a, maxAlive, maxRequest), run, maxAlive, maxRequest)
    ensures ValidRun(s, [a] + run, maxAlive, maxRequest)
    ensures After(s, [a] + run, maxAlive, maxRequest)
         == After(Do(s, a, maxAlive, maxRequest), run, maxAlive, maxRequest)
  {
    assert ([a] + run)[1..] == run;
  }
}
