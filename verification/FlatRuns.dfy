/** ByteArray against a flat buffer: any sequence of write, read, setPosition and clear, with any block
    size, does step by step what the flat buffer does. */
module FlatRuns {
  import opened Codec
  import opened Blocks
  import opened ByteArrays

  datatype Flat = Flat(store: seq<Byte>, position: nat, size: nat)

  datatype Op = OpWrite(data: seq<Byte>) | OpRead(n: nat) | OpSeek(pos: nat) | OpClear

  datatype Out = Done | Data(bytes: seq<Byte>) | Thrown | Crash

  function Max(a: nat, b: nat): nat { if a > b then a else b }

  /** A write: the bytes go to the position, growth is by whole blocks of arbitrary content, and
      everything else stays. */
  predicate FlatWrite(b: nat, f: Flat, data: seq<Byte>, f': Flat)
    requires b >= 1
  {
    var end := f.position + |data|;
    && f'.position == end <= |f'.store| && f.position <= |f.store| <= |f'.store|
    && f'.size == Max(f.size, end)
    && |f'.store| - f'.position == |f.store| - f.position + NewBlocks(|f.store| - f.position, |data|, b) * b - |data|
    && f'.store[..f.position] == f.store[..f.position]
    && f'.store[f.position..end] == data
    && (end < |f.store| ==> f'.store[end..|f.store|] == f.store[end..])
  }

  /** What the flat buffer does. */
  predicate FlatStep(b: nat, f: Flat, op: Op, f': Flat, out: Out)
    requires b >= 1 && f.position <= f.size <= |f.store| && b <= |f.store|
  {
    match op
    case OpWrite(data) =>
      if Suffices(|f.store| - f.position, |data|, b) then out.Done? && FlatWrite(b, f, data, f') else out.Crash?
    case OpRead(n) =>
      if n > f.size - f.position then out.Thrown? && f' == f
      else if n == 0 && f.position == |f.store| then out.Crash?
      else out == Data(f.store[f.position..f.position + n]) && f' == f.(position := f.position + n)
    case OpSeek(pos) =>
      if pos > |f.store| then out.Thrown? && f' == f
      else out.Done? && f' == f.(position := pos, size := Max(f.size, pos))
    case OpClear => out.Done? && f' == Flat(f.store[..b], 0, 0)
  }

  ghost function View(ba: ByteArray): Flat
    reads ba
  {
    Flat(ba.Store(), ba.position, ba.size)
  }

  /** A valid array with a flat view of at least one block. */
  ghost predicate Sound(ba: ByteArray)
    reads ba, ba.Repr
  {
    && ba.Valid() && ba.baseSize >= 1 && |ba.Store()| == ba.capacity
    && ba.position <= ba.size <= |ba.Store()| && ba.baseSize <= |ba.Store()|
  }

  lemma ValidIsSound(ba: ByteArray)
    requires ba.Valid()
    ensures Sound(ba)
  {
    ba.StoreLength();
    if |ba.nodes| > 1 {
      SpanMonotone(0, |ba.nodes|, ba.baseSize);
    }
  }

  method StepWrite(ba: ByteArray, data: seq<Byte>) returns (out: Out)
    requires Sound(ba)
    modifies ba.Repr
    ensures out.Crash? || (Sound(ba) && fresh(ba.Repr - old(ba.Repr)))
    ensures FlatStep(ba.baseSize, old(View(ba)), OpWrite(data), View(ba), out)
  {
    var ok := ba.Write(data);
    if !ok {
      return Crash;
    }
    ValidIsSound(ba);
    out := Done;
  }

  method StepRead(ba: ByteArray, n: nat) returns (out: Out)
    requires Sound(ba)
    modifies ba`position, ba`cur, ba`at
    ensures out.Crash? || Sound(ba)
    ensures FlatStep(ba.baseSize, old(View(ba)), OpRead(n), View(ba), out)
  {
    var r := ba.Read(n);
    match r
    case Bytes(d) => out := Data(d);
    case OutOfRange => out := Thrown;
    case NullCursor => out := Crash;
  }

  method Step(ba: ByteArray, op: Op) returns (out: Out)
    requires Sound(ba)
    modifies ba.Repr
    ensures out.Crash? || (Sound(ba) && fresh(ba.Repr - old(ba.Repr)))
    ensures FlatStep(ba.baseSize, old(View(ba)), op, View(ba), out)
  {
    match op
    case OpWrite(data) => out := StepWrite(ba, data);
    case OpRead(n) => out := StepRead(ba, n);
    case OpSeek(pos) =>
      var ok := ba.SetPosition(pos);
      out := if ok then Done else Thrown;
    case OpClear =>
      ba.Clear();
      ValidIsSound(ba);
      out := Done;
  }

  /** `fs` is a run of the flat buffer with these operations and outcomes. */
  ghost predicate FlatRun(b: nat, fs: seq<Flat>, ops: seq<Op>, outs: seq<Out>)
  {
    && b >= 1 && |fs| == |outs| + 1 && |outs| <= |ops|
    && forall i :: 0 <= i < |outs| ==>
         && fs[i].position <= fs[i].size <= |fs[i].store| && b <= |fs[i].store|
         && FlatStep(b, fs[i], ops[i], fs[i + 1], outs[i])
  }

  /** A run goes on from its last state. */
  lemma FlatRunSnoc(b: nat, fs: seq<Flat>, ops: seq<Op>, outs: seq<Out>, f: Flat, out: Out)
    requires FlatRun(b, fs, ops, outs) && |outs| < |ops|
    requires var last := fs[|outs|];
             && last.position <= last.size <= |last.store| && b <= |last.store|
             && FlatStep(b, last, ops[|outs|], f, out)
    ensures FlatRun(b, fs + [f], ops, outs + [out])
  {
  }

  /** How far a run on the array has come. */
  ghost predicate RunSoFar(ba: ByteArray, fs: seq<Flat>, ops: seq<Op>, outs: seq<Out>)
    reads ba, ba.Repr
  {
    FlatRun(ba.baseSize, fs, ops, outs) && Sound(ba) && fs[|outs|] == View(ba)
  }

  method RunOne(ba: ByteArray, ops: seq<Op>, outs: seq<Out>, ghost fs: seq<Flat>) returns (out: Out, ghost f: Flat)
    requires RunSoFar(ba, fs, ops, outs) && |outs| < |ops|
    modifies ba.Repr
    ensures FlatRun(ba.baseSize, fs + [f], ops, outs + [out])
    ensures out.Crash? || (RunSoFar(ba, fs + [f], ops, outs + [out]) && fresh(ba.Repr - old(ba.Repr)))
  {
    out := Step(ba, ops[|outs|]);
    f := View(ba);
    FlatRunSnoc(ba.baseSize, fs, ops, outs, f, out);
  }

  /** Any sequence of operations: the outcomes are those of a flat run from the array's flat view, cut
      short only by a crash. */
  method Run(ba: ByteArray, ops: seq<Op>) returns (outs: seq<Out>, ghost fs: seq<Flat>)
    requires ba.Valid()
    modifies ba.Repr
    ensures FlatRun(ba.baseSize, fs, ops, outs) && fs[0] == old(View(ba))
    ensures |outs| == |ops| || (outs != [] && outs[|outs| - 1].Crash?)
    ensures outs == [] || !outs[|outs| - 1].Crash? ==> ba.Valid() && fs[|outs|] == View(ba)
  {
    ValidIsSound(ba);
    outs, fs := [], [View(ba)];
    while |outs| < |ops|
      invariant RunSoFar(ba, fs, ops, outs) && fs[0] == old(View(ba)) && fresh(ba.Repr - old(ba.Repr))
      invariant outs == [] || !outs[|outs| - 1].Crash?
      decreases |ops| - |outs|
    {
      var out;
      ghost var f;
      out, f := RunOne(ba, ops, outs, fs);
      outs, fs := outs + [out], fs + [f];
      if out.Crash? {
        return;
      }
    }
  }
}
