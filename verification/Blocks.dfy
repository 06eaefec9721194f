/** Equal-sized blocks read as one flat sequence, and the arithmetic of growing by whole blocks. */
module Blocks {
  import opened Bits
  import opened Codec

  predicate Uniform(blocks: seq<seq<Byte>>, b: nat)
  {
    forall i :: 0 <= i < |blocks| ==> |blocks[i]| == b
  }

  function Flatten(blocks: seq<seq<Byte>>): seq<Byte>
  {
    if blocks == [] then [] else blocks[0] + Flatten(blocks[1..])
  }

  /** The size of `n` blocks. */
  function Span(n: nat, b: nat): nat
  {
    if n == 0 then 0 else Span(n - 1, b) + b
  }

  lemma {:induction false} SpanIsProduct(n: nat, b: nat)
    ensures Span(n, b) == n * b
  {
    if n > 0 {
      SpanIsProduct(n - 1, b);
      assert n * b == (n - 1) * b + b;
    }
  }

  lemma {:induction false} SpanMonotone(i: nat, j: nat, b: nat)
    requires i < j
    ensures Span(i, b) + b <= Span(j, b)
  {
    if i + 1 < j {
      SpanMonotone(i, j - 1, b);
    }
  }

  lemma {:induction false} SpanAdd(i: nat, j: nat, b: nat)
    ensures Span(i + j, b) == Span(i, b) + Span(j, b)
  {
    if j > 0 {
      SpanAdd(i, j - 1, b);
    }
  }

  /** A position inside block `q`: quotient and remainder by the block size. */
  lemma InsideBlock(b: nat, q: nat, pos: nat)
    requires Span(q, b) <= pos < Span(q, b) + b
    ensures pos / b == q && pos % b == pos - Span(q, b)
  {
    SpanIsProduct(q, b);
    assert q * b == b * q;
    Remainder(pos, b, q, pos - Span(q, b));
  }

  lemma {:induction false} FlattenLength(blocks: seq<seq<Byte>>, b: nat)
    requires Uniform(blocks, b)
    ensures |Flatten(blocks)| == Span(|blocks|, b)
  {
    if blocks != [] {
      FlattenLength(blocks[1..], b);
    }
  }

  lemma {:induction false} FlattenAppend(x: seq<seq<Byte>>, y: seq<seq<Byte>>)
    ensures Flatten(x + y) == Flatten(x) + Flatten(y)
  {
    if x == [] {
      assert x + y == y;
    } else {
      assert (x + y)[1..] == x[1..] + y;
      FlattenAppend(x[1..], y);
    }
  }

  lemma FlattenMiddle(x: seq<seq<Byte>>, m: seq<Byte>, y: seq<seq<Byte>>)
    ensures Flatten(x + [m] + y) == Flatten(x) + m + Flatten(y)
  {
    FlattenAppend(x + [m], y);
    FlattenAppend(x, [m]);
    var one: seq<seq<Byte>> := [m];
    assert one[1..] == [];
    assert Flatten(one) == m;
  }

  lemma FlattenSnoc(x: seq<seq<Byte>>, m: seq<Byte>)
    ensures Flatten(x + [m]) == Flatten(x) + m
  {
    FlattenMiddle(x, m, []);
    assert x + [m] + [] == x + [m];
  }

  lemma FlattenPrefix(x: seq<seq<Byte>>, y: seq<seq<Byte>>)
    requires x <= y
    ensures Flatten(x) <= Flatten(y)
  {
    FlattenAppend(x, y[|x|..]);
    assert y == x + y[|x|..];
  }

  lemma FlattenSplit(blocks: seq<seq<Byte>>, q: nat, b: nat)
    requires Uniform(blocks, b) && q < |blocks|
    ensures Flatten(blocks) == Flatten(blocks[..q]) + blocks[q] + Flatten(blocks[q + 1..])
    ensures |Flatten(blocks[..q])| == Span(q, b) && Span(q, b) + b <= |Flatten(blocks)|
  {
    FlattenMiddle(blocks[..q], blocks[q], blocks[q + 1..]);
    assert blocks == blocks[..q] + [blocks[q]] + blocks[q + 1..];
    FlattenLength(blocks[..q], b);
  }

  /** `s` with `data` written over it from `pos`. */
  function Over(s: seq<Byte>, pos: nat, data: seq<Byte>): (r: seq<Byte>)
    requires pos + |data| <= |s|
    ensures |r| == |s|
  {
    s[..pos] + data + s[pos + |data|..]
  }

  /** Writing one more stretch of `buf`. */
  lemma OverNext(s: seq<Byte>, pos: nat, buf: seq<Byte>, i: nat, j: nat)
    requires i <= j <= |buf| && pos + j <= |s|
    ensures Over(Over(s, pos, buf[..i]), pos + i, buf[i..j]) == Over(s, pos, buf[..j])
  {
    OverOver(s, pos, buf[..i], buf[i..j]);
    assert buf[..i] + buf[i..j] == buf[..j];
  }

  lemma OverMiddle(before: seq<Byte>, s: seq<Byte>, after: seq<Byte>, r: nat, data: seq<Byte>)
    requires r + |data| <= |s|
    ensures before + Over(s, r, data) + after == Over(before + s + after, |before| + r, data)
  {
  }

  /** Writing inside one block is writing at the same place of the flat sequence. */
  lemma FlattenOver(x: seq<seq<Byte>>, m: seq<Byte>, y: seq<seq<Byte>>, r: nat, data: seq<Byte>)
    requires r + |data| <= |m|
    ensures |Flatten(x)| + r + |data| <= |Flatten(x + [m] + y)|
    ensures Flatten(x + [Over(m, r, data)] + y) == Over(Flatten(x + [m] + y), |Flatten(x)| + r, data)
  {
    FlattenMiddle(x, m, y);
    FlattenMiddle(x, Over(m, r, data), y);
    OverMiddle(Flatten(x), m, Flatten(y), r, data);
  }

  /** Reading inside one block is reading at the same place of the flat sequence. */
  lemma FlattenSlice(blocks: seq<seq<Byte>>, q: nat, b: nat, r: nat, n: nat)
    requires Uniform(blocks, b) && q < |blocks| && r + n <= b
    ensures Span(q, b) + r + n <= |Flatten(blocks)|
    ensures Flatten(blocks)[Span(q, b) + r..Span(q, b) + r + n] == blocks[q][r..r + n]
  {
    FlattenSplit(blocks, q, b);
  }

  lemma SliceJoin(s: seq<Byte>, i: nat, j: nat, k: nat)
    requires i <= j <= k <= |s|
    ensures s[i..j] + s[j..k] == s[i..k]
  {
  }

  lemma JoinSlices(s: seq<Byte>, i: nat, j: nat, k: nat, x: seq<Byte>, y: seq<Byte>)
    requires i <= j <= k <= |s| && x == s[i..j] && y == s[j..k]
    ensures x + y == s[i..k]
  {
  }

  lemma OverOver(s: seq<Byte>, pos: nat, x: seq<Byte>, y: seq<Byte>)
    requires pos + |x| + |y| <= |s|
    ensures Over(Over(s, pos, x), pos + |x|, y) == Over(s, pos, x + y)
  {
  }

  lemma PositionSplit(b: nat, pos: nat)
    requires b >= 1
    ensures pos == pos / b * b + pos % b && pos % b < b
  {
  }

  lemma DifferentBlocks(p: nat, q: nat, b: nat)
    requires p != q && b >= 1
    ensures p * b != q * b
  {
    if p < q {
      Scale(b, p + 1, q);
    } else {
      Scale(b, q + 1, p);
    }
  }

  /** The next `len` bytes from offset `r` of block `q`, gathered block by block. */
  function Walk(blocks: seq<seq<Byte>>, b: nat, q: nat, r: nat, len: nat): seq<Byte>
    requires Uniform(blocks, b) && r < b
    decreases len
  {
    if len == 0 || q >= |blocks| then []
    else
      var m := if b - r >= len then len else b - r;
      blocks[q][r..r + m] + Walk(blocks, b, q + 1, 0, len - m)
  }

  /** That is the flat sequence's stretch from `p` to `e`. */
  lemma {:induction false} WalkIsSlice(blocks: seq<seq<Byte>>, b: nat, q: nat, r: nat, p: nat, e: nat)
    requires Uniform(blocks, b) && r < b && q <= |blocks| && p == Span(q, b) + r && p <= e <= Span(|blocks|, b)
    ensures e <= |Flatten(blocks)| && Walk(blocks, b, q, r, e - p) == Flatten(blocks)[p..e]
    decreases e - p
  {
    FlattenLength(blocks, b);
    if p < e {
      var m := if b - r >= e - p then e - p else b - r;
      BlockIsSlice(blocks, q, b, r, m, p);
      if p + m < e {
        WalkIsSlice(blocks, b, q + 1, 0, p + m, e);
        SliceJoin(Flatten(blocks), p, p + m, e);
      }
    }
  }

  lemma BlockIsSlice(blocks: seq<seq<Byte>>, q: nat, b: nat, r: nat, n: nat, p: nat)
    requires Uniform(blocks, b) && q < |blocks| && r + n <= b && p == Span(q, b) + r
    ensures p + n <= |Flatten(blocks)| && Flatten(blocks)[p..p + n] == blocks[q][r..r + n]
  {
    FlattenSlice(blocks, q, b, r, n);
  }

  // ----- addCapacity

  /** How many blocks addCapacity appends when `free` bytes are left and `n` are asked for. */
  function NewBlocks(free: nat, n: nat, b: nat): nat
    requires b >= 1
  {
    if n == 0 || free >= n then 0
    else (n - free) / b + if (n - free) % b > free then 1 else 0
  }

  /** When that is enough: something a caller can check beforehand. */
  predicate Suffices(free: nat, n: nat, b: nat)
    requires b >= 1
  {
    n <= free || (n - free) % b == 0 || (n - free) % b > free
  }

  /** addCapacity makes enough room exactly then. */
  lemma AddCapacitySufficesExactly(free: nat, n: nat, b: nat)
    requires b >= 1
    ensures free + NewBlocks(free, n, b) * b >= n <==> Suffices(free, n, b)
    ensures Suffices(free, n, b) <==> n <= free || (n - free) % b == 0 || (n - free) % b > free
  {
    if free < n {
      var d := n - free;
      PositionSplit(b, d);
      if d % b > free {
        assert NewBlocks(free, n, b) * b == d / b * b + b;
      }
    }
  }

  /** And it appends the fewest blocks that suffice, or one less than those. */
  lemma NewBlocksExactly(free: nat, n: nat, b: nat)
    requires b >= 1
    ensures n <= free ==> NewBlocks(free, n, b) == 0
    ensures Suffices(free, n, b) && NewBlocks(free, n, b) > 0 ==> free + (NewBlocks(free, n, b) - 1) * b < n
    ensures !Suffices(free, n, b) ==> free + (NewBlocks(free, n, b) + 1) * b >= n
  {
    if free < n {
      var d, k := n - free, NewBlocks(free, n, b);
      PositionSplit(b, d);
      assert (k + 1) * b == k * b + b && (k - 1) * b == k * b - b;
      if d % b > free {
        assert k * b == d / b * b + b;
      }
    }
  }

  /** A failing request: 3 bytes free in blocks of 4, 5 asked for. */
  lemma AddCapacityCanFallShort()
    ensures NewBlocks(3, 5, 4) == 0 && !Suffices(3, 5, 4)
  {
  }

  lemma SufficesOften(free: nat, n: nat, b: nat)
    requires b >= 1
    ensures free == 0 || b == 1 ==> Suffices(free, n, b)
  {
  }

  /** What is free after a write of `n` bytes at the end. */
  function FreeAfter(free: nat, n: nat, b: nat): nat
    requires b >= 1 && Suffices(free, n, b)
  {
    AddCapacitySufficesExactly(free, n, b);
    free + NewBlocks(free, n, b) * b - n
  }

  /** Every allocation of a run of appends of these lengths suffices. */
  predicate AllSuffice(free: nat, lengths: seq<nat>, b: nat)
    requires b >= 1
    decreases |lengths|
  {
    lengths == [] || (Suffices(free, lengths[0], b) && AllSuffice(FreeAfter(free, lengths[0], b), lengths[1..], b))
  }

  /** What is free after all of them. */
  function FreeAfterAll(free: nat, lengths: seq<nat>, b: nat): nat
    requires b >= 1 && AllSuffice(free, lengths, b)
    decreases |lengths|
  {
    if lengths == [] then free else FreeAfterAll(FreeAfter(free, lengths[0], b), lengths[1..], b)
  }

  function LengthsOf(ps: seq<seq<Byte>>): (ls: seq<nat>)
    ensures |ls| == |ps| && forall i :: 0 <= i < |ps| ==> ls[i] == |ps[i]|
  {
    seq(|ps|, i requires 0 <= i < |ps| => |ps[i]|)
  }

  lemma {:induction false} AllSufficeAppend(free: nat, x: seq<nat>, y: seq<nat>, b: nat)
    requires b >= 1
    ensures AllSuffice(free, x + y, b) <==> AllSuffice(free, x, b) && AllSuffice(FreeAfterAll(free, x, b), y, b)
    ensures AllSuffice(free, x + y, b) ==> FreeAfterAll(free, x + y, b) == FreeAfterAll(FreeAfterAll(free, x, b), y, b)
    decreases |x|
  {
    if x == [] {
      assert x + y == y;
    } else {
      assert (x + y)[1..] == x[1..] + y;
      if Suffices(free, x[0], b) {
        AllSufficeAppend(FreeAfter(free, x[0], b), x[1..], y, b);
      }
    }
  }

  /** One write of a width that divides the block size keeps the free space a multiple of it. */
  lemma AlignedWriteSuffices(w: nat, m: nat, k: nat) returns (k': nat)
    requires w >= 1 && m >= 1
    ensures m * w >= 1 && Suffices(k * w, w, m * w) && FreeAfter(k * w, w, m * w) == k' * w
  {
    assert m * w >= 1 by { Scale(w, 1, m); assert w * m == m * w; }
    if k == 0 {
      SufficesOften(0, w, m * w);
      if m == 1 {
        Remainder(w, m * w, 1, 0);
      } else {
        Scale(w, 2, m);
        assert w * m == m * w;
        Remainder(w, m * w, 0, w);
      }
      assert NewBlocks(0, w, m * w) == 1;
      k' := m - 1;
      assert m * w - w == (m - 1) * w;
    } else {
      Scale(w, 1, k);
      assert k * w == w * k;
      k' := k - 1;
      assert k * w - w == (k - 1) * w;
    }
  }

  /** So a run of appends of one width that divides the block size never falls short. */
  lemma {:induction false} AlignedRunSuffices(w: nat, m: nat, k: nat, lengths: seq<nat>)
    requires w >= 1 && m >= 1 && forall i :: 0 <= i < |lengths| ==> lengths[i] == w
    ensures m * w >= 1 && AllSuffice(k * w, lengths, m * w)
    decreases |lengths|
  {
    var k' := AlignedWriteSuffices(w, m, k);
    if lengths != [] {
      AlignedRunSuffices(w, m, k', lengths[1..]);
    }
  }
}
