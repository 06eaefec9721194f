/** The encodings ByteArray puts on its bytes: fixed-width integers in either byte order, varints,
    zigzag and length-prefixed strings.  Integers are mathematical; every width and truncation of
    the source is written out. */
module Codec {
  import opened Bits

  type Byte = b: int | 0 <= b < 256

  const U32: int := 0x1_0000_0000
  const U64: int := 0x1_0000_0000_0000_0000

  // ----- fixed width

  function Pow256(w: nat): (p: nat)
    ensures p >= 1
  {
    if w == 0 then 1 else 256 * Pow256(w - 1)
  }

  /** The low `w` bytes of `v`, least significant first. */
  function LE(v: nat, w: nat): (bs: seq<Byte>)
    ensures |bs| == w
  {
    if w == 0 then [] else [v % 256] + LE(v / 256, w - 1)
  }

  function FromLE(bs: seq<Byte>): (v: nat)
    ensures v < Pow256(|bs|)
  {
    if bs == [] then 0 else bs[0] + 256 * FromLE(bs[1..])
  }

  function Reversed(bs: seq<Byte>): (r: seq<Byte>)
    ensures |r| == |bs| && forall i :: 0 <= i < |bs| ==> r[i] == bs[|bs| - 1 - i]
  {
    seq(|bs|, i requires 0 <= i < |bs| => bs[|bs| - 1 - i])
  }

  lemma {:induction false} FromLEOfLE(v: nat, w: nat)
    ensures FromLE(LE(v, w)) == v % Pow256(w)
    decreases w
  {
    if w > 0 {
      FromLEOfLE(v / 256, w - 1);
      var p := Pow256(w - 1);
      SplitMod(v, p);
      assert LE(v, w)[1..] == LE(v / 256, w - 1);
    }
  }

  lemma SplitMod(v: nat, p: nat)
    requires p >= 1
    ensures v % (256 * p) == v % 256 + 256 * ((v / 256) % p)
  {
    var q := v / 256;
    var k := q / p;
    var r := v % 256 + 256 * (q % p);
    assert q == p * k + q % p;
    assert v == 256 * q + v % 256 == 256 * (p * k) + r;
    assert 256 * (p * k) == (256 * p) * k;
    assert 0 <= r < 256 * p;
    Remainder(v, 256 * p, k, r);
  }

  lemma {:induction false} LEOfFromLE(bs: seq<Byte>)
    ensures LE(FromLE(bs), |bs|) == bs
    decreases |bs|
  {
    if bs != [] {
      LEOfFromLE(bs[1..]);
      var v := FromLE(bs);
      assert v % 256 == bs[0] && v / 256 == FromLE(bs[1..]);
      assert bs == [bs[0]] + bs[1..];
    }
  }

  /** myendian.h's byteswap on a `w`-byte value. */
  function Byteswap(v: nat, w: nat): nat
  {
    FromLE(Reversed(LE(v, w)))
  }

  lemma ByteswapReverses(v: nat, w: nat)
    ensures LE(Byteswap(v, w), w) == Reversed(LE(v, w))
    ensures v < Pow256(w) ==> Byteswap(Byteswap(v, w), w) == v
  {
    LEOfFromLE(Reversed(LE(v, w)));
    assert Reversed(Reversed(LE(v, w))) == LE(v, w);
    FromLEOfLE(v, w);
    if v < Pow256(w) {
      Small(v, Pow256(w));
    }
  }

  /** The bytes of a value in memory on a host of the given byte order. */
  function Image(v: nat, w: nat, hostLittle: bool): (bs: seq<Byte>)
    ensures |bs| == w
  {
    if hostLittle then LE(v, w) else Reversed(LE(v, w))
  }

  function FromImage(bs: seq<Byte>, hostLittle: bool): nat
  {
    if hostLittle then FromLE(bs) else FromLE(Reversed(bs))
  }

  /** writeFuintN: swapped first if the array's byte order is not the host's. */
  function PutFixed(v: nat, w: nat, little: bool, hostLittle: bool): (bs: seq<Byte>)
    ensures |bs| == w
  {
    Image(if little != hostLittle then Byteswap(v, w) else v, w, hostLittle)
  }

  /** readFuintN. */
  function GetFixed(bs: seq<Byte>, little: bool, hostLittle: bool): nat
  {
    var v := FromImage(bs, hostLittle);
    if little != hostLittle then Byteswap(v, |bs|) else v
  }

  lemma DivideTwice(v: nat, p: nat)
    requires p >= 1
    ensures v / 256 / p == v / (256 * p)
  {
    var q := v / 256;
    var k := q / p;
    assert q == p * k + q % p && v == 256 * q + v % 256;
    assert 256 * (p * k) == (256 * p) * k;
    Remainder(v, 256 * p, k, 256 * (q % p) + v % 256);
  }

  /** Byte `i` of the little-endian image weighs 256^i. */
  lemma {:induction false} LEAt(v: nat, w: nat, i: nat)
    requires i < w
    ensures LE(v, w)[i] == v / Pow256(i) % 256
    decreases w
  {
    if i > 0 {
      LEAt(v / 256, w - 1, i - 1);
      DivideTwice(v, Pow256(i - 1));
    }
  }

  /** The bytes written are in the array's order on every host: the one that weighs 256^i comes at place `i` of a
      little-endian array, and at the mirrored place of a big-endian one... */
  lemma FixedIsInArrayOrder(v: nat, w: nat, little: bool, hostLittle: bool)
    ensures PutFixed(v, w, little, hostLittle) == if little then LE(v, w) else Reversed(LE(v, w))
    ensures forall i :: 0 <= i < w ==>
      PutFixed(v, w, little, hostLittle)[if little then i else w - 1 - i] == v / Pow256(i) % 256
  {
    ByteswapReverses(v, w);
    assert Reversed(Reversed(LE(v, w))) == LE(v, w);
    forall i | 0 <= i < w ensures LE(v, w)[i] == v / Pow256(i) % 256 {
      LEAt(v, w, i);
    }
  }

  /** ...and reading them back gives the value. */
  lemma FixedRoundTrip(v: nat, w: nat, little: bool, hostLittle: bool)
    requires v < Pow256(w)
    ensures GetFixed(PutFixed(v, w, little, hostLittle), little, hostLittle) == v
  {
    var x := if little != hostLittle then Byteswap(v, w) else v;
    assert x < Pow256(w);
    FromLEOfLE(x, w);
    Small(x, Pow256(w));
    assert Reversed(Reversed(LE(x, w))) == LE(x, w);
    ByteswapReverses(v, w);
  }

  /** Two's complement in `w` bytes. */
  function ToUnsigned(v: int, w: nat): nat { v % Pow256(w) }

  function ToSigned(u: nat, w: nat): int
  {
    if 2 * u < Pow256(w) then u else u - Pow256(w)
  }

  lemma SignedRoundTrip(v: int, w: nat)
    requires 0 <= 2 * v + Pow256(w) < 2 * Pow256(w)
    ensures ToUnsigned(v, w) == (if v >= 0 then v else v + Pow256(w)) < Pow256(w)
    ensures ToSigned(ToUnsigned(v, w), w) == v
  {
    var p := Pow256(w);
    if v < 0 {
      Remainder(v + p, p, 0, v + p);
      assert v % p == (v + p) % p by { ModShift(v, p); }
    } else {
      Small(v, p);
    }
  }

  lemma ModShift(v: int, p: nat)
    requires p >= 1 && v + p >= 0 && v < 0
    ensures v % p == (v + p) % p
  {
  }

  // ----- varints

  /** writeUint32 and writeUint64. */
  function Varint(v: nat): (bs: seq<Byte>)
    ensures |bs| >= 1
  {
    if v >= 0x80 then [v % 0x80 + 0x80] + Varint(v / 0x80) else [v]
  }

  function Pow128(k: nat): (p: nat)
    ensures p >= 1
  {
    if k == 0 then 1 else 128 * Pow128(k - 1)
  }

  /** The encoding of a value below 128^k has at most k bytes. */
  lemma {:induction false} VarintLength(v: nat, k: nat)
    requires k >= 1 && v < Pow128(k)
    ensures |Varint(v)| <= k
    decreases k
  {
    if v >= 0x80 {
      if k > 1 {
        VarintLength(v / 0x80, k - 1);
      }
    }
  }

  /** The number a list of bytes denotes, seven bits each, the first the lowest. */
  function Groups(bs: seq<Byte>): nat
  {
    if bs == [] then 0 else bs[0] % 0x80 + 0x80 * Groups(bs[1..])
  }

  /** The encoding denotes the value, all its bytes but the last have their top bit set, and the last is not 0 unless
      it is the only one. */
  lemma {:induction false} VarintIs(v: nat)
    ensures var bs := Varint(v);
            && Groups(bs) == v && (forall i :: 0 <= i < |bs| - 1 ==> bs[i] >= 0x80)
            && bs[|bs| - 1] < 0x80 && (|bs| > 1 ==> bs[|bs| - 1] > 0)
  {
    if v >= 0x80 {
      VarintIs(v / 0x80);
      assert Varint(v)[1..] == Varint(v / 0x80);
    } else {
      assert Varint(v)[1..] == [];
    }
  }

  /** The scratch arrays of 5 and 10 bytes are large enough. */
  lemma VarintFitsScratch(v: nat)
    ensures v < U32 ==> |Varint(v)| <= 5
    ensures v < U64 ==> |Varint(v)| <= 10
  {
    assert Pow128(4) == 0x1000_0000 && Pow128(5) == 0x8_0000_0000;
    assert Pow128(8) == 0x100_0000_0000_0000 && Pow128(10) == 0x40_0000_0000_0000_0000;
    if v < U32 {
      VarintLength(v, 5);
    }
    if v < U64 {
      VarintLength(v, 10);
    }
  }

  /** Masking and flagging seven bits. */
  lemma SevenBits(v: nat)
    ensures BitAnd(v, 0x7F) == v % 0x80 && BitOr(v % 0x80, 0x80) == v % 0x80 + 0x80
  {
    assert Pow2(7) == 0x80;
    MaskIsMod(v, 7);
    DisjointOr(v % 0x80, 7, 1);
  }

  /** The loop of writeUint32 and writeUint64 over its scratch array, whose indices never leave it. */
  method FillScratch(value: nat, size: nat) returns (bs: seq<Byte>)
    requires (size == 5 && value < U32) || (size == 10 && value < U64)
    ensures bs == Varint(value)
  {
    VarintFitsScratch(value);
    var tmp := new Byte[size];
    var i, v := 0, value;
    while v >= 0x80
      invariant i + |Varint(v)| <= size && tmp[..i] + Varint(v) == Varint(value)
    {
      ghost var done := tmp[..i];
      SevenBits(v);
      tmp[i] := BitOr(BitAnd(v, 0x7F), 0x80);
      i := i + 1;
      assert tmp[..i] == done + [v % 0x80 + 0x80];
      v := v / 0x80;
    }
    tmp[i] := v;
    bs := tmp[..i + 1];
  }

  datatype Decoded = Decoded(value: nat, used: nat) | Short

  /** The read loops: at most `limit` more bytes, the next one weighing `unit` = 128^k, into a 32-bit
      result. */
  function GetVarint(bs: seq<Byte>, limit: nat, unit: nat): Decoded
    decreases limit
  {
    if limit == 0 then Decoded(0, 0)
    else if bs == [] then Short
    else if bs[0] < 0x80 then Decoded(bs[0] * unit % U32, 1)
    else
      match GetVarint(bs[1..], limit - 1, unit * 128)
      case Short => Short
      case Decoded(v, used) => Decoded((bs[0] % 0x80 * unit + v) % U32, used + 1)
  }

  /** readUint32 looks at 5 bytes (shifts 0, 7, .., 28), readUint64 at 10 (shifts up to 63). */
  const LIMIT32: nat := 5
  const LIMIT64: nat := 10

  lemma {:induction false} GetVarintOfVarint(v: nat, tail: seq<Byte>, limit: nat, unit: nat)
    requires |Varint(v)| <= limit
    ensures GetVarint(Varint(v) + tail, limit, unit) == Decoded(v * unit % U32, |Varint(v)|)
    decreases limit
  {
    if v >= 0x80 {
      var a, b := v % 0x80 * unit, v / 0x80 * (unit * 128);
      GetVarintOfVarint(v / 0x80, tail, limit - 1, unit * 128);
      assert (Varint(v) + tail)[1..] == Varint(v / 0x80) + tail;
      assert (Varint(v) + tail)[0] % 0x80 == v % 0x80;
      Regroup(v, unit);
      ModAdd(a, b);
    }
  }

  /** The read loops on any bytes: they end after the first byte without its top bit, or after `limit` bytes... */
  lemma {:induction false} GetVarintExactly(bs: seq<Byte>, limit: nat, unit: nat, n: nat)
    requires n <= limit && n <= |bs| && forall i :: 0 <= i < n - 1 ==> bs[i] >= 0x80
    requires if n > 0 && bs[n - 1] < 0x80 then true else n == limit
    ensures GetVarint(bs, limit, unit) == Decoded(Groups(bs[..n]) * unit % U32, n)
    decreases limit
  {
    if n == 0 {
      assert bs[..0] == [];
    } else {
      var rest := Groups(bs[1..][..n - 1]);
      assert bs[..n][1..] == bs[1..][..n - 1];
      if bs[0] < 0x80 {
        assert bs[1..][..0] == [];
        Small(bs[0], 0x80);
      } else {
        GetVarintExactly(bs[1..], limit - 1, unit * 128, n - 1);
        GroupsStep(bs[0] % 0x80, rest, unit);
        ModAdd(bs[0] % 0x80 * unit, rest * (unit * 128));
      }
    }
  }

  lemma GroupsStep(g: nat, rest: nat, unit: nat)
    ensures g * unit + rest * (unit * 128) == (g + 0x80 * rest) * unit
  {
    assert rest * (unit * 128) == 0x80 * rest * unit;
    assert (g + 0x80 * rest) * unit == g * unit + 0x80 * rest * unit;
  }

  /** ...and throw exactly if the bytes run out before. */
  lemma {:induction false} GetVarintShort(bs: seq<Byte>, limit: nat, unit: nat)
    requires |bs| < limit && forall i :: 0 <= i < |bs| ==> bs[i] >= 0x80
    ensures GetVarint(bs, limit, unit).Short?
    decreases limit
  {
    if bs != [] {
      GetVarintShort(bs[1..], limit - 1, unit * 128);
    }
  }

  lemma Regroup(v: nat, unit: nat)
    ensures v % 0x80 * unit + v / 0x80 * (unit * 128) == v * unit
  {
    var q, r := v / 0x80, v % 0x80;
    assert v == r + 128 * q;
    assert q * (unit * 128) == 128 * q * unit;
    assert (r + 128 * q) * unit == r * unit + 128 * q * unit;
  }

  lemma ModAdd(a: nat, b: nat)
    ensures (a + b % U32) % U32 == (a + b) % U32
  {
  }

  /** The same loop, continued after `k` bytes with `acc` gathered so far. */
  function Resume(acc: nat, k: nat, d: Decoded): Decoded
  {
    if d.Short? then Short else Decoded((acc + d.value) % U32, k + d.used)
  }

  lemma VarintBelow(bs: seq<Byte>, limit: nat, unit: nat)
    ensures GetVarint(bs, limit, unit).Decoded? ==> GetVarint(bs, limit, unit).value < U32
  {
  }

  /** result |= g << i, where 2^i is `unit`, in 32 bits. */
  function OrShifted(acc: nat, g: nat, unit: nat): nat
  {
    BitOr(acc, g * unit % U32)
  }

  /** The same as an addition. */
  function AddShifted(acc: nat, g: nat, unit: nat): (r: nat)
    ensures r < U32
  {
    (acc + g * unit) % U32
  }

  /** What has been gathered lies below the next group's bits. */
  predicate Below(acc: nat, unit: nat) { acc < U32 && (unit < U32 ==> acc < unit) }

  /** Then or-ing a group of seven bits in adds it, and the result lies below the group after it. */
  lemma OrAdds(acc: nat, g: nat, k: nat)
    requires g < 0x80 && Below(acc, Pow128(k))
    ensures OrShifted(acc, g, Pow128(k)) == AddShifted(acc, g, Pow128(k))
    ensures Below(OrShifted(acc, g, Pow128(k)), Pow128(k + 1))
  {
    if k <= 4 {
      OrAddsLow(acc, g, k);
    } else {
      HighUnit(k);
      ShiftedOut(g, Pow128(k) / U32);
      assert g * Pow128(k) == g * (Pow128(k) / U32) * U32;
      OrNothing(acc);
      SumWithMultiple(acc, g * (Pow128(k) / U32));
    }
  }

  lemma {:induction false} OrNothing(acc: nat)
    ensures BitOr(acc, 0) == acc
    decreases acc
  {
    if acc > 0 {
      OrNothing(acc / 2);
    }
  }

  lemma ShiftedOut(g: nat, n: nat)
    ensures g * n * U32 % U32 == 0
  {
    Remainder(g * n * U32, U32, g * n, 0);
  }

  lemma SumWithMultiple(acc: nat, n: nat)
    requires acc < U32
    ensures (acc + n * U32) % U32 == acc
  {
    Remainder(acc + n * U32, U32, n, acc);
  }

  /** From the sixth byte on a group is shifted beyond 32 bits. */
  lemma {:induction false} HighUnit(k: nat)
    requires k >= 5
    ensures Pow128(k) >= U32 && Pow128(k) % U32 == 0 && Pow128(k) == Pow128(k) / U32 * U32
  {
    if k == 5 {
      assert Pow128(4) == 0x1000_0000 && Pow128(5) == 0x8_0000_0000;
    } else {
      HighUnit(k - 1);
      var n := Pow128(k - 1) / U32;
      assert Pow128(k) == 128 * n * U32;
      Remainder(Pow128(k), U32, 128 * n, 0);
    }
  }

  lemma Units()
    ensures Pow128(0) == 1 && Pow128(1) == 0x80 && Pow128(2) == 0x4000 && Pow128(3) == 0x20_0000
    ensures Pow128(4) == 0x1000_0000 && Pow128(5) == 0x8_0000_0000
  {
    assert Pow128(2) == 128 * Pow128(1) && Pow128(3) == 128 * Pow128(2) && Pow128(4) == 128 * Pow128(3);
  }

  lemma {:induction false} UnitIsPow2(k: nat)
    ensures Pow128(k) == Pow2(7 * k)
  {
    if k > 0 {
      UnitIsPow2(k - 1);
      var j := 7 * (k - 1);
      assert Pow2(j + 7) == 2 * Pow2(j + 6) && Pow2(j + 6) == 2 * Pow2(j + 5) && Pow2(j + 5) == 2 * Pow2(j + 4);
      assert Pow2(j + 4) == 2 * Pow2(j + 3) && Pow2(j + 3) == 2 * Pow2(j + 2) && Pow2(j + 2) == 2 * Pow2(j + 1);
    }
  }

  lemma UnitDivides(k: nat) returns (n: nat)
    requires k <= 4
    ensures n >= 1 && Pow128(k) * n == U32 && Pow128(k + 1) == Pow128(k) * 128
  {
    Units();
    n := match k
      case 0 => U32
      case 1 => 0x200_0000
      case 2 => 0x4_0000
      case 3 => 0x800
      case _ => 0x10;
  }

  lemma OrAddsLow(acc: nat, g: nat, k: nat)
    requires g < 0x80 && k <= 4 && acc < Pow128(k)
    ensures OrShifted(acc, g, Pow128(k)) == AddShifted(acc, g, Pow128(k))
    ensures Below(OrShifted(acc, g, Pow128(k)), Pow128(k + 1))
  {
    var n := UnitDivides(k);
    UnitIsPow2(k);
    OrAddsTo(acc, g, 7 * k, Pow128(k), n);
  }

  lemma OrAddsTo(acc: nat, g: nat, i: nat, unit: nat, n: nat)
    requires g < 0x80 && n >= 1 && unit == Pow2(i) && unit * n == U32 && acc < unit
    ensures OrShifted(acc, g, unit) == AddShifted(acc, g, unit) < unit * 128
  {
    TruncateShifted(g, unit, n);
    DisjointOr(acc, i, g % n);
    SmallSum(acc, g, unit, n);
  }

  /** Truncating to 32 bits truncates the group. */
  lemma TruncateShifted(g: nat, unit: nat, n: nat)
    requires unit >= 1 && n >= 1 && unit * n == U32
    ensures g * unit % U32 == unit * (g % n) && unit * (g % n) + unit <= U32
  {
    var q, r := g / n, g % n;
    assert g == n * q + r;
    assert g * unit == U32 * q + unit * r by { Regrouped(g, unit, n, q, r); }
    Scale(unit, r + 1, n);
    Remainder(g * unit, U32, q, unit * r);
  }

  lemma Regrouped(g: nat, unit: nat, n: nat, q: nat, r: nat)
    requires g == n * q + r
    ensures g * unit == unit * n * q + unit * r
  {
    assert g * unit == (n * q + r) * unit == n * q * unit + r * unit;
    assert n * q * unit == unit * n * q;
  }

  lemma RemainderBelow(g: nat, n: nat)
    requires g < 0x80 && n >= 1
    ensures g % n < 0x80
  {
  }

  lemma SmallSum(acc: nat, g: nat, unit: nat, n: nat)
    requires acc < unit && g < 0x80 && n >= 1 && unit * n == U32
    requires g * unit % U32 == unit * (g % n) && unit * (g % n) + unit <= U32
    ensures (acc + g * unit) % U32 == acc + unit * (g % n)
    ensures acc + unit * (g % n) < U32 && acc + unit * (g % n) < unit * 128
  {
    var x, y := g * unit, unit * (g % n);
    ModAdd(acc, x);
    Small(acc + y, U32);
    RemainderBelow(g, n);
    Scale(unit, g % n + 1, 128);
  }

  /** The last byte of a varint. */
  lemma ResumeLast(bs: seq<Byte>, limit: nat, unit: nat, acc: nat, k: nat)
    requires limit > 0 && bs != [] && bs[0] < 0x80
    ensures Resume(acc, k, GetVarint(bs, limit, unit)) == Decoded(AddShifted(acc, bs[0] % 0x80, unit), k + 1)
  {
    ModAdd(acc, bs[0] * unit);
  }

  /** No byte left to look at. */
  lemma ResumeDone(bs: seq<Byte>, unit: nat, acc: nat, k: nat)
    requires acc < U32
    ensures Resume(acc, k, GetVarint(bs, 0, unit)) == Decoded(acc, k)
  {
    Small(acc, U32);
  }

  /** One more byte with its top bit set. */
  lemma ResumeStep(bs: seq<Byte>, limit: nat, unit: nat, acc: nat, k: nat)
    requires limit > 0 && bs != [] && bs[0] >= 0x80
    ensures Resume(acc, k, GetVarint(bs, limit, unit))
         == Resume(AddShifted(acc, bs[0] % 0x80, unit), k + 1, GetVarint(bs[1..], limit - 1, unit * 128))
  {
    var d := GetVarint(bs[1..], limit - 1, unit * 128);
    if d.Decoded? {
      var x := bs[0] % 0x80 * unit;
      ModAdd(acc, x + d.value);
      ModAdd(d.value, acc + x);
    }
  }

  /** The loop on a byte without its top bit set, in the source's own operations... */
  lemma LastByte(bs: seq<Byte>, limit: nat, k: nat, acc: nat)
    requires limit > 0 && bs != [] && bs[0] < 0x80 && Below(acc, Pow128(k))
    ensures Resume(acc, k, GetVarint(bs, limit, Pow128(k))) == Decoded(OrShifted(acc, bs[0], Pow128(k)), k + 1)
  {
    Small(bs[0], 0x80);
    OrAdds(acc, bs[0], k);
    ResumeLast(bs, limit, Pow128(k), acc, k);
  }

  lemma ResumeSame(bs: seq<Byte>, limit: nat, unit: nat, next: nat, acc: nat, acc': nat, k: nat)
    requires limit > 0 && bs != [] && bs[0] >= 0x80 && next == unit * 128 && acc' == AddShifted(acc, bs[0] % 0x80, unit)
    ensures Resume(acc, k, GetVarint(bs, limit, unit)) == Resume(acc', k + 1, GetVarint(bs[1..], limit - 1, next))
  {
    ResumeStep(bs, limit, unit, acc, k);
  }

  /** ...and with it set. */
  lemma NextByte(bs: seq<Byte>, limit: nat, k: nat, acc: nat)
    requires limit > 0 && bs != [] && bs[0] >= 0x80 && Below(acc, Pow128(k))
    ensures var acc' := OrShifted(acc, BitAnd(bs[0], 0x7F), Pow128(k));
            && Below(acc', Pow128(k + 1))
            && Resume(acc, k, GetVarint(bs, limit, Pow128(k)))
                 == Resume(acc', k + 1, GetVarint(bs[1..], limit - 1, Pow128(k + 1)))
  {
    SevenBits(bs[0]);
    OrAdds(acc, bs[0] % 0x80, k);
    ResumeSame(bs, limit, Pow128(k), Pow128(k + 1), acc, OrShifted(acc, bs[0] % 0x80, Pow128(k)), k);
  }

  /** Decoding consumes exactly the encoded bytes, whatever follows: readUint32 inverts writeUint32,
      and readUint64 returns the value modulo 2^32. */
  lemma VarintRoundTrip(v: nat, tail: seq<Byte>)
    ensures v < U32 ==> GetVarint(Varint(v) + tail, LIMIT32, 1) == Decoded(v, |Varint(v)|)
    ensures v < U64 ==> GetVarint(Varint(v) + tail, LIMIT64, 1) == Decoded(v % U32, |Varint(v)|)
  {
    VarintFitsScratch(v);
    if v < U32 {
      GetVarintOfVarint(v, tail, LIMIT32, 1);
    }
    if v < U64 {
      GetVarintOfVarint(v, tail, LIMIT64, 1);
    }
  }

  /** readUint64 stops after ten bytes, and keeps the low 32 bits. */
  lemma ReadUint64Stops(bs: seq<Byte>)
    requires |bs| >= 10 && forall i :: 0 <= i < 9 ==> bs[i] >= 0x80
    ensures GetVarint(bs, LIMIT64, 1) == Decoded(Groups(bs[..10]) % 0x1_0000_0000, 10)
  {
    GetVarintExactly(bs, LIMIT64, 1, 10);
  }

  // ----- zigzag

  /** EncodeZigzag32; -value is taken modulo 2^32. */
  function EncodeZigzag32(v: int): nat
  {
    if v < 0 then (-v * 2 - 1) % U32 else 2 * v % U32
  }

  /** (value >> 1) ^ -(value & 1), read as an int32_t. */
  function DecodeZigzag32(u: nat): int
  {
    ToSigned(BitXor(u / 2, (U32 - BitAnd(u, 1)) % U32), 4)
  }

  /** An odd value complements the shifted one. */
  lemma DecodeZigzagIs(u: nat)
    requires u < U32
    ensures DecodeZigzag32(u) == if u % 2 == 0 then u / 2 else -(u / 2) - 1
  {
    assert Pow2(1) == 2;
    MaskIsMod(u, 1);
    Pow32();
    if u % 2 == 0 {
      XorZero(u / 2);
    } else {
      assert (U32 - 1) % U32 == U32 - 1;
      XorOnes(u / 2, 32);
    }
  }

  lemma Pow32()
    ensures Pow2(32) == U32 && Pow256(4) == U32
  {
    assert Pow2(8) == 0x100 && Pow2(16) == 0x1_0000 && Pow2(24) == 0x100_0000 && Pow2(32) == U32;
  }

  /** 0, -1, 1, -2, .. become 0, 1, 2, 3, .. */
  lemma ZigzagIs(v: int)
    requires -0x8000_0000 <= v < 0x8000_0000
    ensures EncodeZigzag32(v) == if v < 0 then -2 * v - 1 else 2 * v
  {
    var u: nat := if v < 0 then -v * 2 - 1 else 2 * v;
    Small(u, U32);
  }

  lemma Zigzag32RoundTrip(v: int)
    requires -0x8000_0000 <= v < 0x8000_0000
    ensures EncodeZigzag32(v) < U32 && DecodeZigzag32(EncodeZigzag32(v)) == v
  {
    var u: nat := if v < 0 then -v * 2 - 1 else 2 * v;
    Small(u, U32);
    DecodeZigzagIs(u);
    if v < 0 {
      assert u == 2 * (-v - 1) + 1;
    }
  }

  lemma Zigzag32Onto(u: nat)
    requires u < U32
    ensures -0x8000_0000 <= DecodeZigzag32(u) < 0x8000_0000 && EncodeZigzag32(DecodeZigzag32(u)) == u
  {
    Small(u, U32);
    DecodeZigzagIs(u);
  }

  /** DecodeZigzag64, which readInt64 uses. */
  function DecodeZigzag64(u: nat): int
  {
    ToSigned(BitXor(u / 2, (U64 - BitAnd(u, 1)) % U64), 8)
  }

  lemma Pow64()
    ensures Pow2(64) == U64 == Pow256(8)
  {
    Pow32();
    assert Pow2(40) == 0x100 * U32 && Pow2(48) == 0x1_0000 * U32 && Pow2(56) == 0x100_0000 * U32;
    assert Pow256(6) == 0x1_0000 * U32;
  }

  lemma DecodeZigzag64Is(u: nat)
    requires u < U64
    ensures DecodeZigzag64(u) == if u % 2 == 0 then u / 2 else -(u / 2) - 1
  {
    assert Pow2(1) == 2;
    MaskIsMod(u, 1);
    Pow64();
    if u % 2 == 0 {
      XorZero(u / 2);
    } else {
      assert (U64 - 1) % U64 == U64 - 1;
      XorOnes(u / 2, 64);
    }
  }

  /** On every 32-bit code the two decoders agree. */
  lemma DecodersAgree(u: nat)
    requires u < U32
    ensures DecodeZigzag64(u) == DecodeZigzag32(u)
  {
    DecodeZigzagIs(u);
    DecodeZigzag64Is(u);
  }

  /** Truncation to int32_t, as happens to writeInt64's argument. */
  function ToInt32(v: int): int { ToSigned(v % U32, 4) }

  /** writeInt64 sends EncodeZigzag32 of the truncated value; readInt64 decodes what readUint64 got. */
  function Int64RoundTrip(v: int): int
  {
    match GetVarint(Varint(EncodeZigzag32(ToInt32(v))), LIMIT64, 1)
    case Decoded(u, _) => DecodeZigzag64(u)
    case Short => 0
  }

  /** readUint64 gets back the code that was sent. */
  lemma CodeComesBack(u: nat)
    requires u < U32
    ensures GetVarint(Varint(u), LIMIT64, 1) == Decoded(u, |Varint(u)|)
  {
    VarintRoundTrip(u, []);
    assert Varint(u) + [] == Varint(u);
    Small(u, U32);
  }

  lemma ToInt32Exactly(v: int)
    ensures -0x8000_0000 <= ToInt32(v) < 0x8000_0000
    ensures ToInt32(v) == v <==> -0x8000_0000 <= v < 0x8000_0000
  {
    assert Pow256(4) == U32;
  }

  /** So a 64-bit value survives writeInt64 and readInt64 exactly if it fits 32 bits. */
  lemma Int64SurvivesExactly(v: int)
    ensures Int64RoundTrip(v) == ToInt32(v)
    ensures Int64RoundTrip(v) == v <==> -0x8000_0000 <= v < 0x8000_0000
  {
    ToInt32Exactly(v);
    Zigzag32RoundTrip(ToInt32(v));
    CodeComesBack(EncodeZigzag32(ToInt32(v)));
    DecodersAgree(EncodeZigzag32(ToInt32(v)));
  }
}
