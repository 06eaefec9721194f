/** Typed writing and reading through a ByteArray. */
module TypedIO {
  import opened Bits
  import opened Codec
  import opened Blocks
  import opened Wire
  import opened ByteArrays

  // ----- writing

  /** `data` has been appended to storage that was `s0`, filled up to `p0`. */
  ghost predicate Appended(ba: ByteArray, s0: seq<Byte>, p0: nat, data: seq<Byte>)
    reads ba
  {
    && ba.position == ba.size == p0 + |data| <= |ba.Store()| && p0 <= |s0|
    && ba.Store()[..p0] == s0[..p0] && ba.Store()[p0..ba.position] == data
  }

  lemma AppendTwice(ba: ByteArray, s0: seq<Byte>, p0: nat, x: seq<Byte>, s1: seq<Byte>, y: seq<Byte>)
    requires p0 + |x| <= |s1| && p0 <= |s0| && s1[..p0] == s0[..p0] && s1[p0..p0 + |x|] == x
    requires Appended(ba, s1, p0 + |x|, y)
    ensures Appended(ba, s0, p0, x + y)
  {
    var s, q := ba.Store(), p0 + |x|;
    assert s[..p0] == s[..q][..p0] && s1[..p0] == s1[..q][..p0];
    assert s[p0..q] == s[..q][p0..] && s1[p0..q] == s1[..q][p0..];
    assert s[p0..ba.position] == s[p0..q] + s[q..ba.position];
  }

  /** How far a run of writes has come: the first `i` pieces are in place and all allocations so far
      sufficed. */
  ghost predicate WroteUpTo(ba: ByteArray, s0: seq<Byte>, p0: nat, free: nat, ps: seq<seq<Byte>>, i: nat)
    reads ba, ba.Repr
  {
    && ba.Valid() && i <= |ps| && Appended(ba, s0, p0, Flatten(ps[..i]))
    && AllSuffice(free, LengthsOf(ps[..i]), ba.baseSize)
    && ba.capacity - ba.position == FreeAfterAll(free, LengthsOf(ps[..i]), ba.baseSize)
  }

  lemma LengthsSnoc(ps: seq<seq<Byte>>, i: nat)
    requires i < |ps|
    ensures LengthsOf(ps[..i + 1]) == LengthsOf(ps[..i]) + [|ps[i]|]
    ensures ps[..i + 1] == ps[..i] + [ps[i]] && Flatten(ps[..i + 1]) == Flatten(ps[..i]) + ps[i]
  {
    assert ps[..i + 1] == ps[..i] + [ps[i]];
    FlattenSnoc(ps[..i], ps[i]);
  }

  /** One more allocation decides. */
  lemma OneMoreSuffices(free: nat, lengths: seq<nat>, n: nat, b: nat)
    requires b >= 1 && AllSuffice(free, lengths, b)
    ensures var f := FreeAfterAll(free, lengths, b);
            && (AllSuffice(free, lengths + [n], b) <==> Suffices(f, n, b))
            && (Suffices(f, n, b) ==> FreeAfterAll(free, lengths + [n], b) == FreeAfter(f, n, b))
  {
    AllSufficeAppend(free, lengths, [n], b);
    assert [n][1..] == [];
  }

  /** Failing once is failing for the whole run. */
  lemma FailingPrefix(free: nat, ps: seq<seq<Byte>>, i: nat, b: nat)
    requires b >= 1 && i <= |ps| && !AllSuffice(free, LengthsOf(ps[..i]), b)
    ensures !AllSuffice(free, LengthsOf(ps), b)
  {
    AllSufficeAppend(free, LengthsOf(ps[..i]), LengthsOf(ps[i..]), b);
    assert LengthsOf(ps) == LengthsOf(ps[..i]) + LengthsOf(ps[i..]);
  }

  method WritePiece(ba: ByteArray, ps: seq<seq<Byte>>, i: nat, ghost s0: seq<Byte>, ghost p0: nat, ghost free: nat)
    returns (ok: bool)
    requires WroteUpTo(ba, s0, p0, free, ps, i) && i < |ps|
    modifies ba.Repr
    ensures ok ==>
      WroteUpTo(ba, s0, p0, free, ps, i + 1) && fresh(ba.Repr - old(ba.Repr)) && ba.little == old(ba.little)
    ensures !ok ==> !AllSuffice(free, LengthsOf(ps), ba.baseSize)
  {
    ghost var s1 := ba.Store();
    LengthsSnoc(ps, i);
    OneMoreSuffices(free, LengthsOf(ps[..i]), |ps[i]|, ba.baseSize);
    ok := ba.Write(ps[i]);
    if ok {
      AppendTwice(ba, s0, p0, Flatten(ps[..i]), s1, ps[i]);
    } else {
      FailingPrefix(free, ps, i + 1, ba.baseSize);
    }
  }

  /** A run of appends.  It completes exactly if every allocation suffices. */
  method WritePieces(ba: ByteArray, ps: seq<seq<Byte>>) returns (ok: bool)
    requires ba.Valid() && ba.position == ba.size
    modifies ba.Repr
    ensures ok <==> AllSuffice(old(ba.capacity - ba.position), LengthsOf(ps), ba.baseSize)
    ensures ok ==> ba.Valid() && fresh(ba.Repr - old(ba.Repr)) && ba.little == old(ba.little)
    ensures ok ==> Appended(ba, old(ba.Store()), old(ba.position), Flatten(ps))
  {
    ghost var s0, p0, free := ba.Store(), ba.position, ba.capacity - ba.position;
    ba.StoreLength();
    var i := 0;
    while i < |ps|
      invariant i <= |ps| && WroteUpTo(ba, s0, p0, free, ps, i)
      invariant fresh(ba.Repr - old(ba.Repr)) && ba.little == old(ba.little)
    {
      ok := WritePiece(ba, ps, i, s0, p0, free);
      if !ok {
        return;
      }
      i := i + 1;
    }
    assert ps[..i] == ps;
    ok := true;
  }

  /** Writing a list of typed values at the end. */
  method WriteAll(ba: ByteArray, vs: seq<Value>) returns (ok: bool)
    requires ba.Valid() && ba.position == ba.size && forall i :: 0 <= i < |vs| ==> WellTyped(vs[i])
    modifies ba.Repr
    ensures ok <==>
      AllSuffice(old(ba.capacity - ba.position), LengthsOf(AllPieces(vs, old(ba.little), ba.hostLittle)), ba.baseSize)
    ensures ok ==> ba.Valid() && fresh(ba.Repr - old(ba.Repr)) && ba.little == old(ba.little)
    ensures ok ==> Appended(ba, old(ba.Store()), old(ba.position), EncodeAll(vs, ba.little, ba.hostLittle))
  {
    PiecesFlatten(vs, ba.little, ba.hostLittle);
    var ps := PiecesOfAll(vs, ba.little, ba.hostLittle);
    ok := WritePieces(ba, ps);
  }

  // ----- reading

  /** The readable bytes. */
  ghost function Rest(ba: ByteArray): seq<Byte>
    reads ba
    requires ba.position <= ba.size <= |ba.Store()|
  {
    ba.Store()[ba.position..ba.size]
  }

  ghost predicate Readable(ba: ByteArray)
    reads ba, ba.Repr
  {
    ba.Valid() && ba.position <= ba.size <= |ba.Store()|
  }

  datatype Reading = Got(v: Value) | Threw | Crashed

  /** read of `n` bytes, seen on the readable bytes. */
  method Take(ba: ByteArray, n: nat) returns (r: ReadResult)
    requires Readable(ba)
    modifies ba`position, ba`cur, ba`at
    ensures Readable(ba)
    ensures r.OutOfRange? <==> n > |old(Rest(ba))|
    ensures r.NullCursor? <==> n == 0 && old(ba.position) == ba.capacity
    ensures r.Bytes? ==> r.data == old(Rest(ba))[..n] && Rest(ba) == old(Rest(ba))[n..]
    ensures r.Bytes? ==> ba.position == old(ba.position) + n
  {
    r := ba.Read(n);
  }

  /** The loop of readUint32 or readUint64 after `k` bytes, with what it has gathered: below the bits of the
      next group. */
  ghost predicate VarintUpTo(ba: ByteArray, rest: seq<Byte>, p0: nat, limit: nat, k: nat, result: nat)
    reads ba, ba.Repr
  {
    && Readable(ba) && k <= limit && k <= |rest| && ba.position == p0 + k && Rest(ba) == rest[k..]
    && Below(result, Pow128(k))
    && Resume(result, k, GetVarint(rest[k..], limit - k, Pow128(k))) == GetVarint(rest, limit, 1)
  }

  /** One byte of that loop; `d` is its result if it ends here. */
  method VarintByte(ba: ByteArray, limit: nat, k: nat, result: nat, unit: nat, ghost rest: seq<Byte>, ghost p0: nat)
    returns (ended: bool, d: Decoded, result': nat)
    requires VarintUpTo(ba, rest, p0, limit, k, result) && k < limit && unit == Pow128(k)
    modifies ba`position, ba`cur, ba`at
    ensures ended ==> Readable(ba) && d == GetVarint(rest, limit, 1)
    ensures ended && d.Decoded? ==> d.used <= |rest| && ba.position == p0 + d.used && Rest(ba) == rest[d.used..]
    ensures !ended ==> VarintUpTo(ba, rest, p0, limit, k + 1, result')
  {
    ghost var left := rest[k..];
    result', ended := result, true;
    var r := Take(ba, 1);
    if !r.Bytes? {
      return true, Short, result;
    }
    var b := r.data[0];
    assert b == left[0] && left[1..] == rest[k + 1..];
    if b < 0x80 {
      LastByte(left, limit - k, k, result);
      result' := OrShifted(result, b, unit);
    } else {
      NextByte(left, limit - k, k, result);
      result' := OrShifted(result, BitAnd(b, 0x7F), unit);
      ended := false;
    }
    d := Decoded(result', k + 1);
  }

  /** The loop of readUint32 (five bytes) and readUint64 (ten): one byte at a time. */
  method ReadVarint(ba: ByteArray, limit: nat) returns (d: Decoded)
    requires Readable(ba)
    modifies ba`position, ba`cur, ba`at
    ensures Readable(ba)
    ensures d == GetVarint(old(Rest(ba)), limit, 1)
    ensures d.Decoded? ==> d.used <= |old(Rest(ba))| && ba.position == old(ba.position) + d.used
    ensures d.Decoded? ==> Rest(ba) == old(Rest(ba))[d.used..]
  {
    ghost var rest, p0 := Rest(ba), ba.position;
    var result: nat, unit: nat, k: nat := 0, 1, 0;
    ResumeFromStart(rest, limit);
    while k < limit
      invariant VarintUpTo(ba, rest, p0, limit, k, result) && unit == Pow128(k)
    {
      var ended;
      ended, d, result := VarintByte(ba, limit, k, result, unit, rest, p0);
      if ended {
        return;
      }
      unit := unit * 128;
      k := k + 1;
    }
    ResumeDone(rest[k..], unit, result, k);
    d := Decoded(result, k);
  }

  lemma ResumeFromStart(rest: seq<Byte>, limit: nat)
    ensures Resume(0, 0, GetVarint(rest[0..], limit, 1)) == GetVarint(rest, limit, 1)
  {
    assert rest[0..] == rest;
    VarintBelow(rest, limit, 1);
  }

  method ReadInteger(ba: ByteArray, k: Kind) returns (r: Reading)
    requires Readable(ba) && (k.KUnsigned? || k.KSigned?) && k.w >= 1
    modifies ba`position, ba`cur, ba`at
    ensures Readable(ba) && !r.Crashed?
    ensures var p := Decode(k, old(Rest(ba)), ba.little, ba.hostLittle);
            if p.TooShort? then r.Threw?
            else r == Got(p.v) && p.used <= |old(Rest(ba))| && Rest(ba) == old(Rest(ba))[p.used..]
  {
    var got := Take(ba, k.w);
    if !got.Bytes? {
      return Threw;
    }
    var u := GetFixed(got.data, ba.little, ba.hostLittle);
    r := Got(if k.KUnsigned? then Unsigned(k.w, u) else Signed(k.w, ToSigned(u, k.w)));
  }

  method ReadVar(ba: ByteArray, k: Kind) returns (r: Reading)
    requires Readable(ba) && (k.KVar32? || k.KZig32?)
    modifies ba`position, ba`cur, ba`at
    ensures Readable(ba) && !r.Crashed?
    ensures var p := Decode(k, old(Rest(ba)), ba.little, ba.hostLittle);
            if p.TooShort? then r.Threw?
            else r == Got(p.v) && p.used <= |old(Rest(ba))| && Rest(ba) == old(Rest(ba))[p.used..]
  {
    var d := ReadVarint(ba, LIMIT32);
    match d
    case Short => r := Threw;
    case Decoded(u, _) => r := Got(if k.KVar32? then Var32(u) else Zig32(DecodeZigzag32(u)));
  }

  /** The null cursor readStringF* can hit: an empty string whose length field ends the storage. */
  ghost predicate EmptyAtEnd(ba: ByteArray, w: nat, p: Parsed)
    reads ba
  {
    p.Parsed? && p.used == w && ba.position + w == ba.capacity
  }

  method ReadString(ba: ByteArray, w: nat) returns (r: Reading)
    requires Readable(ba) && w >= 1
    modifies ba`position, ba`cur, ba`at
    ensures Readable(ba)
    ensures var p := Decode(KStr(w), old(Rest(ba)), ba.little, ba.hostLittle);
            if p.TooShort? then r.Threw?
            else if old(EmptyAtEnd(ba, w, p)) then r.Crashed?
            else r == Got(p.v) && p.used <= |old(Rest(ba))| && Rest(ba) == old(Rest(ba))[p.used..]
  {
    ghost var rest := Rest(ba);
    var got := Take(ba, w);
    if !got.Bytes? {
      return Threw;
    }
    var n := GetFixed(got.data, ba.little, ba.hostLittle);
    var data := Take(ba, n);
    match data
    case OutOfRange => r := Threw;
    case NullCursor => r := Crashed;
    case Bytes(s) =>
      r := Got(Str(w, s));
      Cut(rest, w, n);
  }

  lemma Cut(s: seq<Byte>, w: nat, n: nat)
    requires w + n <= |s|
    ensures s[w..][..n] == s[w..w + n] && s[w..][n..] == s[w + n..]
  {
  }

  predicate KnownKind(k: Kind) { k.KVar32? || k.KZig32? || k.w >= 1 }

  /** Reading one value: what Decode says of the readable bytes, except for the one null cursor. */
  method ReadValue(ba: ByteArray, k: Kind) returns (r: Reading)
    requires Readable(ba) && KnownKind(k)
    modifies ba`position, ba`cur, ba`at
    ensures Readable(ba)
    ensures var p := Decode(k, old(Rest(ba)), ba.little, ba.hostLittle);
            if p.TooShort? then r.Threw?
            else if k.KStr? && old(EmptyAtEnd(ba, k.w, p)) then r.Crashed?
            else r == Got(p.v) && p.used <= |old(Rest(ba))| && Rest(ba) == old(Rest(ba))[p.used..]
  {
    if k.KStr? {
      r := ReadString(ba, k.w);
    } else if k.KVar32? || k.KZig32? {
      r := ReadVar(ba, k);
    } else {
      r := ReadInteger(ba, k);
    }
  }

  datatype Readings = All(vs: seq<Value>) | Failed

  /** Where reading back fails: the last value is an empty string and the storage is exactly full. */
  ghost predicate EndsEmptyAndFull(ba: ByteArray, vs: seq<Value>)
    reads ba
  {
    EndsEmpty(vs) && ba.size == ba.capacity
  }

  predicate EndsEmpty(vs: seq<Value>)
  {
    vs != [] && vs[|vs| - 1].Str? && vs[|vs| - 1].s == []
  }

  /** The bytes of `vs` are what is left to read. */
  ghost predicate Holds(ba: ByteArray, vs: seq<Value>)
    reads ba, ba.Repr
  {
    && Readable(ba) && Rest(ba) == EncodeAll(vs, ba.little, ba.hostLittle)
    && forall i :: 0 <= i < |vs| ==> Fits(vs[i])
  }

  lemma DropHead(x: seq<Byte>, y: seq<Byte>)
    ensures (x + y)[|x|..] == y
  {
  }

  /** Reading the first of them back; the rest is then left. */
  method ReadNext(ba: ByteArray, ghost vs: seq<Value>, k: Kind) returns (r: Reading)
    requires Holds(ba, vs) && vs != [] && k == KindOf(vs[0])
    modifies ba`position, ba`cur, ba`at
    ensures if |vs| == 1 && EndsEmptyAndFull(ba, vs) then r.Crashed? else r == Got(vs[0]) && Holds(ba, vs[1..])
  {
    ghost var head, tail := Encode(vs[0], ba.little, ba.hostLittle), EncodeAll(vs[1..], ba.little, ba.hostLittle);
    DecodeEncode(vs[0], tail, ba.little, ba.hostLittle);
    LastEmpty(ba, vs);
    DropHead(head, tail);
    r := ReadValue(ba, k);
  }

  /** An empty string's length field can end the storage only if that string comes last. */
  lemma LastEmpty(ba: ByteArray, vs: seq<Value>)
    requires Holds(ba, vs) && vs != []
    ensures var n := |Encode(vs[0], ba.little, ba.hostLittle)|;
            && (vs[0].Str? ==> (n == vs[0].w <==> vs[0].s == []))
            && (vs[0].Str? && vs[0].s == [] ==>
                  (ba.position + vs[0].w == ba.capacity <==> |vs| == 1 && ba.size == ba.capacity))
  {
    ba.StoreLength();
    if |vs| > 1 {
      EncodingIsNotEmpty(vs[1], ba.little, ba.hostLittle);
      assert vs[1..][0] == vs[1];
      assert |EncodeAll(vs[1..], ba.little, ba.hostLittle)| >= 1;
    } else {
      assert vs[1..] == [];
      assert EncodeAll(vs, ba.little, ba.hostLittle) == Encode(vs[0], ba.little, ba.hostLittle);
      assert |Rest(ba)| == ba.size - ba.position;
    }
  }

  /** The first `i` values have been read back. */
  ghost predicate ReadUpTo(ba: ByteArray, vs: seq<Value>, i: nat, got: seq<Value>)
    reads ba, ba.Repr
  {
    i <= |vs| && Holds(ba, vs[i..]) && got == vs[..i] && (i == |vs| ==> !EndsEmptyAndFull(ba, vs))
  }

  method ReadStep(ba: ByteArray, ghost vs: seq<Value>, ghost i: nat, k: Kind, got: seq<Value>)
      returns (ok: bool, got': seq<Value>)
    requires ReadUpTo(ba, vs, i, got) && i < |vs| && k == KindOf(vs[i])
    modifies ba`position, ba`cur, ba`at
    ensures if ok then ReadUpTo(ba, vs, i + 1, got') else EndsEmptyAndFull(ba, vs)
  {
    Suffix(vs, i);
    var one := ReadNext(ba, vs[i..], k);
    ok := one.Got?;
    got' := if ok then got + [one.v] else got;
  }

  /** Reading a whole list back. */
  method ReadAll(ba: ByteArray, kinds: seq<Kind>, ghost vs: seq<Value>) returns (r: Readings)
    requires Holds(ba, vs) && kinds == KindsOf(vs)
    modifies ba`position, ba`cur, ba`at
    ensures r == if EndsEmptyAndFull(ba, vs) then Failed else All(vs)
    ensures r.All? ==> ba.Valid() && ba.position == ba.size
  {
    var got: seq<Value> := [];
    var i := 0;
    assert vs[0..] == vs;
    while i < |kinds|
      invariant i <= |kinds| && ReadUpTo(ba, vs, i, got)
    {
      var ok;
      ok, got := ReadStep(ba, vs, i, kinds[i], got);
      if !ok {
        return Failed;
      }
      i := i + 1;
    }
    assert vs[..i] == vs && vs[i..] == [];
    r := All(got);
  }

  lemma Suffix(vs: seq<Value>, i: nat)
    requires i < |vs|
    ensures EndsEmpty(vs[i..]) <==> EndsEmpty(vs)
    ensures vs[i..][1..] == vs[i + 1..] && vs[i..][0] == vs[i] && |vs[i..]| == |vs| - i
    ensures vs[..i] + [vs[i]] == vs[..i + 1]
  {
  }

  /** Write a list, go back to 0, read it back.  The writing completes exactly if every allocation
      suffices; then the reading gives the list and leaves nothing, unless the last value is an empty
      string and the storage is exactly full, when it dereferences a null cursor. */
  method RoundTrip(ba: ByteArray, vs: seq<Value>) returns (wrote: bool, r: Readings)
    requires ba.Valid() && ba.position == 0 && ba.size == 0
    requires forall i :: 0 <= i < |vs| ==> Fits(vs[i])
    modifies ba.Repr
    ensures wrote <==> AllSuffice(old(ba.capacity), LengthsOf(AllPieces(vs, old(ba.little), ba.hostLittle)),
      ba.baseSize)
    ensures wrote ==> r == if EndsEmptyAndFull(ba, vs) then Failed else All(vs)
    ensures wrote && r.All? ==> ba.Valid() && ba.position == ba.size == |EncodeAll(vs, ba.little, ba.hostLittle)|
  {
    r := Failed;
    wrote := WriteAll(ba, vs);
    if wrote {
      ghost var n := ba.size;
      var ok := ba.SetPosition(0);
      assert ba.Store()[0..n] == EncodeAll(vs, ba.little, ba.hostLittle);
      r := ReadAll(ba, KindsOf(vs), vs);
    }
  }
}
