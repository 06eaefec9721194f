/** Typed values on the wire: what the write methods emit for each and what the read methods make of
    any bytes. */
module Wire {
  import opened Codec
  import opened Blocks

  /** Unsigned and signed integers of `w` bytes, 32-bit varints, zigzag varints, and strings behind a
      length of `w` bytes. */
  datatype Value =
    | Unsigned(w: nat, u: nat)
    | Signed(w: nat, i: int)
    | Var32(u: nat)
    | Zig32(i: int)
    | Str(w: nat, s: seq<Byte>)

  datatype Kind = KUnsigned(w: nat) | KSigned(w: nat) | KVar32 | KZig32 | KStr(w: nat)

  function KindOf(v: Value): Kind
  {
    match v
    case Unsigned(w, _) => KUnsigned(w)
    case Signed(w, _) => KSigned(w)
    case Var32(_) => KVar32
    case Zig32(_) => KZig32
    case Str(w, _) => KStr(w)
  }

  /** The value is one of its C++ type. */
  predicate WellTyped(v: Value)
  {
    match v
    case Unsigned(w, u) => w >= 1 && u < Pow256(w)
    case Signed(w, i) => w >= 1 && 0 <= 2 * i + Pow256(w) < 2 * Pow256(w)
    case Var32(u) => u < U32
    case Zig32(i) => -0x8000_0000 <= i < 0x8000_0000
    case Str(w, _) => w >= 1
  }

  /** And a string's length fits its length field. */
  predicate Fits(v: Value)
  {
    WellTyped(v) && (v.Str? ==> |v.s| < Pow256(v.w))
  }

  /** The arguments of the successive calls of write. */
  function Pieces(v: Value, little: bool, host: bool): (ps: seq<seq<Byte>>)
    ensures 1 <= |ps| <= 2
  {
    match v
    case Unsigned(w, u) => [PutFixed(u, w, little, host)]
    case Signed(w, i) => [PutFixed(ToUnsigned(i, w), w, little, host)]
    case Var32(u) => [Varint(u)]
    case Zig32(i) => [Varint(EncodeZigzag32(i))]
    case Str(w, s) => [PutFixed(|s|, w, little, host), s]
  }

  function Encode(v: Value, little: bool, host: bool): seq<Byte>
  {
    var ps := Pieces(v, little, host);
    if |ps| == 1 then ps[0] else ps[0] + ps[1]
  }

  datatype Parsed = Parsed(v: Value, used: nat) | TooShort

  /** What reading a value of this kind from these bytes gives. */
  function Decode(k: Kind, bs: seq<Byte>, little: bool, host: bool): Parsed
  {
    match k
    case KUnsigned(w) => if |bs| < w then TooShort else Parsed(Unsigned(w, GetFixed(bs[..w], little, host)), w)
    case KSigned(w) => if |bs| < w then TooShort else Parsed(Signed(w, ToSigned(GetFixed(bs[..w], little, host), w)), w)
    case KVar32 =>
      (match GetVarint(bs, LIMIT32, 1)
       case Short => TooShort
       case Decoded(u, used) => Parsed(Var32(u), used))
    case KZig32 =>
      (match GetVarint(bs, LIMIT32, 1)
       case Short => TooShort
       case Decoded(u, used) => Parsed(Zig32(DecodeZigzag32(u)), used))
    case KStr(w) =>
      if |bs| < w then TooShort
      else
        var n := GetFixed(bs[..w], little, host);
        if |bs| - w < n then TooShort else Parsed(Str(w, bs[w..w + n]), w + n)
  }

  lemma TakeFixed(u: nat, w: nat, tail: seq<Byte>, little: bool, host: bool)
    requires u < Pow256(w)
    ensures GetFixed((PutFixed(u, w, little, host) + tail)[..w], little, host) == u
  {
    assert (PutFixed(u, w, little, host) + tail)[..w] == PutFixed(u, w, little, host);
    FixedRoundTrip(u, w, little, host);
  }

  lemma DecodeInteger(v: Value, tail: seq<Byte>, little: bool, host: bool)
    requires Fits(v) && (v.Unsigned? || v.Signed?)
    ensures Decode(KindOf(v), Encode(v, little, host) + tail, little, host) == Parsed(v, |Encode(v, little, host)|)
  {
    if v.Unsigned? {
      TakeFixed(v.u, v.w, tail, little, host);
    } else {
      SignedRoundTrip(v.i, v.w);
      TakeFixed(ToUnsigned(v.i, v.w), v.w, tail, little, host);
    }
  }

  lemma DecodeVarint(v: Value, tail: seq<Byte>, little: bool, host: bool)
    requires Fits(v) && (v.Var32? || v.Zig32?)
    ensures Decode(KindOf(v), Encode(v, little, host) + tail, little, host) == Parsed(v, |Encode(v, little, host)|)
  {
    if v.Var32? {
      VarintRoundTrip(v.u, tail);
    } else {
      Zigzag32RoundTrip(v.i);
      VarintRoundTrip(EncodeZigzag32(v.i), tail);
    }
  }

  lemma DecodeString(w: nat, s: seq<Byte>, tail: seq<Byte>, little: bool, host: bool)
    requires |s| < Pow256(w)
    ensures Decode(KStr(w), Encode(Str(w, s), little, host) + tail, little, host) == Parsed(Str(w, s), w + |s|)
  {
    var head := PutFixed(|s|, w, little, host);
    var bs := Encode(Str(w, s), little, host) + tail;
    ThreeParts(bs, head, s, tail);
    FixedRoundTrip(|s|, w, little, host);
    DecodeStringAt(w, |s|, bs, little, host);
  }

  lemma ThreeParts(bs: seq<Byte>, x: seq<Byte>, y: seq<Byte>, z: seq<Byte>)
    requires bs == x + y + z
    ensures bs[..|x|] == x && bs[|x|..|x| + |y|] == y
  {
  }

  lemma DecodeStringAt(w: nat, n: nat, bs: seq<Byte>, little: bool, host: bool)
    requires w + n <= |bs| && GetFixed(bs[..w], little, host) == n
    ensures Decode(KStr(w), bs, little, host) == Parsed(Str(w, bs[w..w + n]), w + n)
  {
  }

  /** Every value that fits is read back, from exactly its own bytes, whatever follows them. */
  lemma DecodeEncode(v: Value, tail: seq<Byte>, little: bool, host: bool)
    requires Fits(v)
    ensures Decode(KindOf(v), Encode(v, little, host) + tail, little, host) == Parsed(v, |Encode(v, little, host)|)
  {
    if v.Str? {
      DecodeString(v.w, v.s, tail, little, host);
    } else if v.Unsigned? || v.Signed? {
      DecodeInteger(v, tail, little, host);
    } else {
      DecodeVarint(v, tail, little, host);
    }
  }

  /** The byte that weighs 256^i is at place `i` from the array's low end. */
  ghost predicate InArrayOrder(bs: seq<Byte>, v: int, w: nat, little: bool)
  {
    |bs| == w && forall i :: 0 <= i < w ==> bs[if little then i else w - 1 - i] == v / Pow256(i) % 256
  }

  /** All bytes but the last have their top bit set. */
  predicate FlaggedButLast(bs: seq<Byte>)
  {
    bs != [] && bs[|bs| - 1] < 0x80 && forall i :: 0 <= i < |bs| - 1 ==> bs[i] >= 0x80
  }

  lemma PutInOrder(v: nat, w: nat, little: bool, host: bool)
    ensures InArrayOrder(PutFixed(v, w, little, host), v, w, little)
  {
    FixedIsInArrayOrder(v, w, little, host);
  }

  /** The format of integers: their bytes in the array's order, two's complement if signed. */
  lemma IntegerFormat(v: Value, little: bool, host: bool)
    requires Fits(v) && (v.Unsigned? || v.Signed?)
    ensures |Pieces(v, little, host)| == 1
    ensures v.Unsigned? ==> InArrayOrder(Encode(v, little, host), v.u, v.w, little)
    ensures v.Signed? ==> InArrayOrder(Encode(v, little, host), if v.i < 0 then v.i + Pow256(v.w) else v.i, v.w, little)
  {
    if v.Unsigned? {
      PutInOrder(v.u, v.w, little, host);
    } else {
      SignedRoundTrip(v.i, v.w);
      PutInOrder(ToUnsigned(v.i, v.w), v.w, little, host);
    }
  }

  /** Of varints: seven bits a byte, the lowest first, with negative numbers interleaved if signed. */
  lemma VarintFormat(v: Value, little: bool, host: bool)
    requires Fits(v) && (v.Var32? || v.Zig32?)
    ensures |Pieces(v, little, host)| == 1 && FlaggedButLast(Encode(v, little, host))
    ensures v.Var32? ==> Groups(Encode(v, little, host)) == v.u
    ensures v.Zig32? ==> Groups(Encode(v, little, host)) == if v.i < 0 then -2 * v.i - 1 else 2 * v.i
  {
    if v.Var32? {
      VarintIs(v.u);
    } else {
      ZigzagIs(v.i);
      VarintIs(EncodeZigzag32(v.i));
    }
  }

  /** Of strings: the bytes of the length, then the string's own, written one after the other. */
  lemma StringFormat(w: nat, s: seq<Byte>, little: bool, host: bool)
    ensures var bs := Encode(Str(w, s), little, host);
            |bs| == w + |s| && bs[w..] == s && InArrayOrder(bs[..w], |s|, w, little)
    ensures Pieces(Str(w, s), little, host) == [Encode(Str(w, s), little, host)[..w], s]
  {
    PutInOrder(|s|, w, little, host);
    var head := PutFixed(|s|, w, little, host);
    assert (head + s)[..w] == head && (head + s)[w..] == s;
  }

  /** What readUint32 makes of any bytes: it stops after the first byte without its top bit or after five, and takes
      the low 32 bits; it throws exactly if the bytes run out before. */
  lemma DecodeAnyVarint(bs: seq<Byte>, n: nat, little: bool, host: bool)
    requires n <= 5 && n <= |bs| && (forall i :: 0 <= i < n - 1 ==> bs[i] >= 0x80)
    requires n == 5 || (n > 0 && bs[n - 1] < 0x80) || (n == |bs| && forall i :: 0 <= i < n ==> bs[i] >= 0x80)
    ensures Decode(KVar32, bs, little, host) ==
      if n == 5 || (n > 0 && bs[n - 1] < 0x80) then Parsed(Var32(Groups(bs[..n]) % 0x1_0000_0000), n) else TooShort
  {
    if n == 5 || (n > 0 && bs[n - 1] < 0x80) {
      GetVarintExactly(bs, LIMIT32, 1, n);
    } else {
      GetVarintShort(bs, LIMIT32, 1);
    }
  }

  // ----- lists

  function EncodeAll(vs: seq<Value>, little: bool, host: bool): seq<Byte>
  {
    if vs == [] then [] else Encode(vs[0], little, host) + EncodeAll(vs[1..], little, host)
  }

  lemma {:induction false} EncodeAllSnoc(vs: seq<Value>, v: Value, little: bool, host: bool)
    ensures EncodeAll(vs + [v], little, host) == EncodeAll(vs, little, host) + Encode(v, little, host)
  {
    if vs == [] {
      assert vs + [v] == [v] && [v][1..] == [];
    } else {
      assert (vs + [v])[1..] == vs[1..] + [v];
      EncodeAllSnoc(vs[1..], v, little, host);
    }
  }

  function KindsOf(vs: seq<Value>): (ks: seq<Kind>)
    ensures |ks| == |vs| && forall i :: 0 <= i < |vs| ==> ks[i] == KindOf(vs[i])
  {
    seq(|vs|, i requires 0 <= i < |vs| => KindOf(vs[i]))
  }

  /** The arguments of all calls of write for a list. */
  function AllPieces(vs: seq<Value>, little: bool, host: bool): seq<seq<Byte>>
  {
    if vs == [] then [] else Pieces(vs[0], little, host) + AllPieces(vs[1..], little, host)
  }

  lemma {:induction false} PiecesFlatten(vs: seq<Value>, little: bool, host: bool)
    ensures Flatten(AllPieces(vs, little, host)) == EncodeAll(vs, little, host)
  {
    if vs != [] {
      PiecesFlatten(vs[1..], little, host);
      FlattenAppend(Pieces(vs[0], little, host), AllPieces(vs[1..], little, host));
      OnePiece(Pieces(vs[0], little, host));
    }
  }

  lemma OnePiece(ps: seq<seq<Byte>>)
    requires 1 <= |ps| <= 2
    ensures Flatten(ps) == if |ps| == 1 then ps[0] else ps[0] + ps[1]
  {
    if |ps| == 1 {
      assert ps[1..] == [];
    } else {
      assert ps[1..] == [ps[1]] && ps[1..][1..] == [];
    }
  }

  /** Anything that fits takes at least one byte. */
  lemma EncodingIsNotEmpty(v: Value, little: bool, host: bool)
    requires Fits(v)
    ensures |Encode(v, little, host)| >= 1
  {
  }

  // ----- the encoding as the write methods do it

  /** The pieces of one value, with the varint loop run over its scratch array. */
  method PiecesOf(v: Value, little: bool, host: bool) returns (ps: seq<seq<Byte>>)
    requires WellTyped(v)
    ensures ps == Pieces(v, little, host)
  {
    match v
    case Unsigned(w, u) => ps := [PutFixed(u, w, little, host)];
    case Signed(w, i) => ps := [PutFixed(ToUnsigned(i, w), w, little, host)];
    case Var32(u) =>
      var bs := FillScratch(u, 5);
      ps := [bs];
    case Zig32(i) =>
      Zigzag32RoundTrip(i);
      var bs := FillScratch(EncodeZigzag32(i), 5);
      ps := [bs];
    case Str(w, s) => ps := [PutFixed(|s|, w, little, host), s];
  }

  lemma PiecesNext(vs: seq<Value>, i: nat, little: bool, host: bool)
    requires i < |vs|
    ensures AllPieces(vs[i..], little, host) == Pieces(vs[i], little, host) + AllPieces(vs[i + 1..], little, host)
  {
    assert vs[i..][0] == vs[i] && vs[i..][1..] == vs[i + 1..];
  }

  method PiecesOfAll(vs: seq<Value>, little: bool, host: bool) returns (ps: seq<seq<Byte>>)
    requires forall i :: 0 <= i < |vs| ==> WellTyped(vs[i])
    ensures ps == AllPieces(vs, little, host)
  {
    ps := [];
    assert vs[0..] == vs;
    var i := 0;
    while i < |vs|
      invariant i <= |vs| && ps + AllPieces(vs[i..], little, host) == AllPieces(vs, little, host)
    {
      PiecesNext(vs, i, little, host);
      var more := PiecesOf(vs[i], little, host);
      Reassociated(ps, more, AllPieces(vs[i + 1..], little, host));
      ps := ps + more;
      i := i + 1;
    }
  }

  lemma Reassociated(x: seq<seq<Byte>>, y: seq<seq<Byte>>, z: seq<seq<Byte>>)
    ensures x + y + z == x + (y + z)
  {
  }
}
