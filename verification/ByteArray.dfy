/** ByteArray: a linked list of fixed-size nodes with a cursor, proved to behave as one flat buffer.
    A dereferenced null cursor is reported in the results instead of crashing. */
module ByteArrays {
  import opened Codec
  import opened Blocks

  class Node {
    const size: nat
    const ptr: array<Byte>
    var next: Node?

    /** The bytes of a new node are arbitrary. */
    constructor (s: nat)
      ensures size == s && ptr.Length == s && fresh(ptr) && next == null
    {
      size, ptr, next := s, new Byte[s], null;
    }
  }

  /** `ns` are the nodes of a list in order: linked one to the next, the last to null, all of size `b`,
      no two sharing storage. */
  ghost predicate Chain(ns: seq<Node>, b: nat)
    reads ns
  {
    && |ns| >= 1
    && (forall i :: 0 <= i < |ns| ==> ns[i].size == b && ns[i].ptr.Length == b)
    && (forall i {:trigger ns[i].next} :: 0 <= i < |ns| ==> ns[i].next == if i + 1 < |ns| then ns[i + 1] else null)
    && (forall i, j :: 0 <= i < j < |ns| ==> ns[i] != ns[j] && ns[i].ptr != ns[j].ptr)
  }

  /** memcpy into an array. */
  method CopyBytes(a: array<Byte>, off: nat, data: seq<Byte>)
    requires off + |data| <= a.Length
    modifies a
    ensures a[..] == Over(old(a[..]), off, data)
  {
    forall k | 0 <= k < |data| {
      a[off + k] := data[k];
    }
  }

  /** One iovec: `len` bytes of a node's storage from `offset`. */
  datatype Segment = Segment(base: array<Byte>, offset: nat, len: nat)

  /** The bytes a list of segments denotes, in order. */
  ghost function Gathered(segs: seq<Segment>): seq<Byte>
    reads set s | s in segs :: s.base
    requires forall s :: s in segs ==> s.offset + s.len <= s.base.Length
  {
    if segs == [] then [] else
    segs[0].base[segs[0].offset..segs[0].offset + segs[0].len] + Gathered(segs[1..])
  }

  lemma GatheredCons(s: Segment, rest: seq<Segment>)
    requires forall x :: x in [s] + rest ==> x.offset + x.len <= x.base.Length
    ensures (forall x :: x in rest ==> x.offset + x.len <= x.base.Length) && s.offset + s.len <= s.base.Length
    ensures Gathered([s] + rest) == s.base[s.offset..s.offset + s.len] + Gathered(rest)
  {
    assert forall x :: x in rest ==> x in [s] + rest;
    assert s in [s] + rest;
    assert ([s] + rest)[1..] == rest;
  }

  lemma Reassociate(x: seq<Segment>, s: Segment, y: seq<Segment>)
    ensures x + [s] + y == x + ([s] + y)
  {
  }

  datatype ReadResult = Bytes(data: seq<Byte>) | OutOfRange | NullCursor

  class ByteArray {
    const baseSize: nat
    const hostLittle: bool
    var position: nat
    var capacity: nat
    var size: nat
    var little: bool
    var root: Node
    var cur: Node?

    ghost var nodes: seq<Node>
    ghost var blocks: seq<seq<Byte>>      // what the nodes hold
    ghost var at: nat                     // the cursor's place in `nodes`
    ghost var Repr: set<object>

    /** The linked list and what it holds. */
    ghost predicate ListOk()
      reads this, Repr
    {
      && this in Repr && (forall i :: 0 <= i < |nodes| ==> nodes[i] in Repr && nodes[i].ptr in Repr)
      && baseSize >= 1 && Chain(nodes, baseSize) && root == nodes[0]
      && |blocks| == |nodes| && (forall i :: 0 <= i < |nodes| ==> nodes[i].ptr[..] == blocks[i])
    }

    /** Block `q` holds byte `pos`; past the last block there is none. */
    ghost predicate InBlock(q: nat, pos: nat)
      reads this
    {
      if q < |nodes| then Span(q, baseSize) <= pos < Span(q, baseSize) + baseSize
      else q == |nodes| && pos == capacity
    }

    /** The sizes fit, and the cursor is the block that holds `position`, or null exactly at the end of
        the storage. */
    ghost predicate CursorOk()
      reads this
    {
      && capacity == Span(|nodes|, baseSize) && position <= size <= capacity
      && InBlock(at, position) && cur == if at < |nodes| then nodes[at] else null
    }

    ghost predicate Valid()
      reads this, Repr
    {
      ListOk() && CursorOk()
    }

    /** All storage, read as one sequence of `capacity` bytes. */
    ghost function Store(): (s: seq<Byte>)
      reads this
    {
      Flatten(blocks)
    }

    constructor (base: nat, host: bool)
      requires base >= 1
      ensures Valid() && fresh(Repr)
      ensures baseSize == base && hostLittle == host && position == 0 && size == 0 && capacity == base && !little
    {
      baseSize, hostLittle := base, host;
      position, capacity, size, little := 0, base, 0, false;
      var n := new Node(base);
      root, cur := n, n;
      nodes := [n];
      Repr := {this, n, n.ptr};
      at, blocks := 0, [n.ptr[..]];
    }

    /** memcpy into one node. */
    method CopyInto(node: Node, ghost q: nat, off: nat, data: seq<Byte>)
      requires ListOk() && q < |nodes| && node == nodes[q] && off + |data| <= baseSize
      modifies node.ptr, this`blocks
      ensures ListOk()
      ensures blocks == old(blocks)[..q] + [Over(old(blocks[q]), off, data)] + old(blocks)[q + 1..]
    {
      CopyBytes(node.ptr, off, data);
      blocks := blocks[..q] + [Over(blocks[q], off, data)] + blocks[q + 1..];
    }

    method AppendNode(last: Node) returns (node: Node)
      requires ListOk() && last == nodes[|nodes| - 1]
      modifies this`nodes, this`Repr, this`blocks, last`next
      ensures ListOk() && fresh(Repr - old(Repr)) && fresh(node)
      ensures nodes == old(nodes) + [node] && |blocks| == |nodes| && blocks[..|old(blocks)|] == old(blocks)
    {
      node := new Node(baseSize);
      last.next := node;
      nodes := nodes + [node];
      Repr := Repr + {node, node.ptr};
      blocks := blocks + [node.ptr[..]];
    }

    method LastNode() returns (tmp: Node)
      requires ListOk()
      ensures tmp == nodes[|nodes| - 1]
    {
      tmp := root;
      ghost var i := 0;
      while tmp.next != null
        invariant 0 <= i < |nodes| && tmp == nodes[i]
        decreases |nodes| - i
      {
        tmp := tmp.next;
        i := i + 1;
      }
      assert nodes[i].next == null;
    }

    /** The allocation loop. */
    method AppendNodes(last: Node, count: nat) returns (first: Node?)
      requires ListOk() && last == nodes[|nodes| - 1]
      modifies this`nodes, this`Repr, this`blocks, this`capacity, nodes
      ensures ListOk() && fresh(Repr - old(Repr))
      ensures |nodes| == |old(nodes)| + count && old(nodes) <= nodes && old(blocks) <= blocks
      ensures first == if count == 0 then null else nodes[|old(nodes)|]
      ensures old(capacity == Span(|nodes|, baseSize)) ==> capacity == Span(|nodes|, baseSize)
    {
      first := null;
      var tmp := last;
      for i := 0 to count
        invariant ListOk() && tmp == nodes[|nodes| - 1] && fresh(Repr - old(Repr))
        invariant tmp in old(nodes) || fresh(tmp)
        invariant |nodes| == |old(nodes)| + i && old(nodes) <= nodes && old(blocks) <= blocks
        invariant first == if i == 0 then null else nodes[|old(nodes)|]
        invariant old(capacity == Span(|nodes|, baseSize)) ==> capacity == Span(|nodes|, baseSize)
      {
        tmp := AppendNode(tmp);
        if first == null {
          first := tmp;
        }
        capacity := capacity + baseSize;
      }
    }

    /** The number of nodes to append when `oldCap` bytes are free and more are wanted. */
    method CountBlocks(oldCap: nat, n: nat) returns (count: nat)
      requires baseSize >= 1 && oldCap < n
      ensures count == NewBlocks(oldCap, n, baseSize) && (oldCap == 0 ==> count >= 1)
      ensures oldCap + Span(count, baseSize) >= n <==> Suffices(oldCap, n, baseSize)
    {
      var missing := n - oldCap;
      count := missing / baseSize + (if missing % baseSize > oldCap then 1 else 0);
      PositionSplit(baseSize, missing);
      SpanIsProduct(count, baseSize);
      AddCapacitySufficesExactly(oldCap, n, baseSize);
    }

    /** Appends nodes; a null cursor is pointed at the first of them. */
    method Grow(count: nat)
      requires Valid() && (position == capacity ==> count >= 1)
      modifies this`nodes, this`Repr, this`blocks, this`capacity, this`cur, nodes
      ensures Valid() && fresh(Repr - old(Repr)) && old(blocks) <= blocks
      ensures capacity == old(capacity) + Span(count, baseSize) && |nodes| == |old(nodes)| + count
    {
      var oldCap := capacity - position;
      var tmp := LastNode();
      if at < |nodes| {
        SpanMonotone(at, |nodes|, baseSize);
      }
      var first := AppendNodes(tmp, count);
      if oldCap == 0 {
        cur := first;
      }
      SpanAdd(|old(nodes)|, count, baseSize);
    }

    /** addCapacity: enough room for `n` bytes exactly if Suffices says so. */
    method AddCapacity(n: nat)
      requires Valid()
      modifies this`nodes, this`Repr, this`blocks, this`capacity, this`cur, nodes
      ensures Valid() && fresh(Repr - old(Repr)) && old(blocks) <= blocks
      ensures |nodes| == |old(nodes)| + NewBlocks(old(capacity - position), n, baseSize)
      ensures capacity == old(capacity) + Span(NewBlocks(old(capacity - position), n, baseSize), baseSize)
      ensures position + n <= capacity <==> Suffices(old(capacity - position), n, baseSize)
      ensures n > 0 ==> position < capacity
    {
      if n == 0 || capacity - position >= n {
        return;
      }
      var count := CountBlocks(capacity - position, n);
      if count > 0 {
        SpanMonotone(0, count, baseSize);
      }
      Grow(count);
    }

    lemma StoreLength()
      requires ListOk()
      ensures |Store()| == Span(|nodes|, baseSize) && Uniform(blocks, baseSize)
    {
      FlattenLength(blocks, baseSize);
    }

    /** The cursor is block number position / baseSize, or null exactly when position equals capacity;
        position % baseSize is the offset in it. */
    lemma CursorPlace()
      requires Valid()
      ensures cur == null <==> position == capacity
      ensures cur != null ==> position / baseSize == at < |nodes| && cur == nodes[at]
      ensures cur != null ==> position % baseSize == position - Span(at, baseSize)
    {
      if at < |nodes| {
        InsideBlock(baseSize, at, position);
        SpanMonotone(at, |nodes|, baseSize);
      }
    }

    /** memcpy into one node, seen on the flat storage. */
    method WritePiece(node: Node, ghost q: nat, off: nat, data: seq<Byte>)
      requires ListOk() && q < |nodes| && node == nodes[q] && off + |data| <= baseSize
      modifies node.ptr, this`blocks
      ensures ListOk() && Span(q, baseSize) + off + |data| <= |old(Store())|
      ensures Store() == Over(old(Store()), Span(q, baseSize) + off, data)
    {
      StoreLength();
      FlattenLength(blocks[..q], baseSize);
      FlattenOver(blocks[..q], blocks[q], blocks[q + 1..], off, data);
      assert blocks == blocks[..q] + [blocks[q]] + blocks[q + 1..];
      CopyInto(node, q, off, data);
    }

    /** The cursor stands in a block, with `npos` bytes of it behind and `ncap` ahead. */
    ghost predicate Standing(npos: nat, ncap: nat)
      reads this
    {
      at < |nodes| && cur == nodes[at] && position == Span(at, baseSize) + npos && npos + ncap == baseSize && ncap > 0
    }

    /** The cursor stands in some block or has run off the end. */
    ghost predicate CursorFits()
      reads this
    {
      InBlock(at, position) && cur == if at < |nodes| then nodes[at] else null
    }

    /** The part common to every copying loop: `m` bytes on, and to the next node if that was the rest
        of this one. */
    method Advance(m: nat, npos: nat, ncap: nat)
      requires ListOk() && capacity == Span(|nodes|, baseSize) && Standing(npos, ncap) && m <= ncap
      modifies this`position, this`cur, this`at
      ensures ListOk() && position == old(position) + m && CursorFits()
      ensures cur != null ==> Standing(if m == ncap then 0 else npos + m, if m == ncap then baseSize else ncap - m)
      ensures cur == null ==> position == capacity
    {
      position := position + m;
      if cur.size == npos + m {
        cur := cur.next;
        at := at + 1;
      }
    }

    /** Where a copying loop starts: the offset in the current node and what is left of it. */
    method Offset() returns (npos: nat, ncap: nat)
      requires ListOk() && capacity == Span(|nodes|, baseSize) && CursorFits() && cur != null
      ensures Standing(npos, ncap) && position < capacity
    {
      InsideBlock(baseSize, at, position);
      SpanMonotone(at, |nodes|, baseSize);
      npos := position % baseSize;
      ncap := cur.size - npos;
    }

    /** The first `i` bytes of `buf` have been written from `p0` over the storage `s0`. */
    ghost predicate Written(s0: seq<Byte>, p0: nat, buf: seq<Byte>, i: nat)
      reads this, Repr
    {
      && ListOk() && capacity == Span(|nodes|, baseSize) == |s0| && CursorFits()
      && i <= |buf| && position == p0 + i <= |s0| && Store() == Over(s0, p0, buf[..i])
    }

    /** One round of the copying loop: bytes `i` to `j` of `buf`, which fit the current block. */
    method WriteRound(buf: seq<Byte>, i: nat, j: nat, npos: nat, ncap: nat, ghost s0: seq<Byte>, ghost p0: nat)
      requires Written(s0, p0, buf, i) && Standing(npos, ncap) && i <= j <= |buf| && j - i <= ncap
      modifies this`position, this`cur, this`at, this`blocks, set n | n in nodes :: n.ptr
      ensures Written(s0, p0, buf, j)
      ensures cur != null && j - i == ncap ==> Standing(0, baseSize)
      ensures cur == null ==> position == capacity
    {
      SpanMonotone(at, |nodes|, baseSize);
      WritePiece(cur, at, npos, buf[i..j]);
      OverNext(s0, p0, buf, i, j);
      Advance(j - i, npos, ncap);
    }

    /** A round and, if bytes are left, the move to the next node, which may be missing. */
    method WriteStep(buf: seq<Byte>, bpos: nat, npos: nat, ncap: nat, ghost s0: seq<Byte>, ghost p0: nat)
      returns (done: nat, npos': nat, ncap': nat, stuck: bool)
      requires Written(s0, p0, buf, bpos) && Standing(npos, ncap) && bpos < |buf|
      modifies this`position, this`cur, this`at, this`blocks, set n | n in nodes :: n.ptr
      ensures bpos < done <= |buf| && Written(s0, p0, buf, done)
      ensures done < |buf| && !stuck ==> Standing(npos', ncap')
      ensures stuck ==> done < |buf| && p0 + done == capacity
    {
      var left := |buf| - bpos;
      var m := if ncap >= left then left else ncap;
      done, npos', ncap', stuck := bpos + m, npos, ncap, false;
      WriteRound(buf, bpos, done, npos, ncap, s0, p0);
      if done < |buf| {
        stuck := cur == null;
        if !stuck {
          npos', ncap' := 0, cur.size;
        }
      }
    }

    /** The copying loop of write, from a cursor that is not null.  It runs off the list exactly if the
        storage is too short. */
    method WriteLoop(buf: seq<Byte>, ghost s0: seq<Byte>, ghost p0: nat) returns (ok: bool)
      requires Written(s0, p0, buf, 0) && buf != [] && cur != null
      modifies this`position, this`cur, this`at, this`blocks, set n | n in nodes :: n.ptr
      ensures ok <==> p0 + |buf| <= capacity
      ensures ok ==> Written(s0, p0, buf, |buf|)
    {
      var npos: nat, ncap: nat := Offset();
      var bpos: nat := 0;
      while bpos < |buf|
        invariant Written(s0, p0, buf, bpos)
        invariant bpos < |buf| ==> Standing(npos, ncap)
        decreases |buf| - bpos
      {
        var stuck;
        bpos, npos, ncap, stuck := WriteStep(buf, bpos, npos, ncap, s0, p0);
        if stuck {
          return false;
        }
      }
      ok := true;
    }

    /** What a completed write leaves, over storage that was `s0` and may have grown. */
    ghost predicate Wrote(s0: seq<Byte>, p0: nat, size0: nat, buf: seq<Byte>)
      reads this
    {
      && position == p0 + |buf| <= |Store()| && |s0| <= |Store()| && p0 <= |s0|
      && size == (if size0 > position then size0 else position)
      && Store()[..p0] == s0[..p0]
      && Store()[p0..position] == buf
      && (position < |s0| ==> Store()[position..|s0|] == s0[position..])
    }

    /** addCapacity as seen on the flat storage. */
    method MakeRoom(n: nat)
      requires Valid() && n > 0
      modifies this`nodes, this`Repr, this`blocks, this`capacity, this`cur, nodes
      ensures Valid() && fresh(Repr - old(Repr)) && old(Store()) <= Store() && |Store()| == capacity
      ensures |old(Store())| == old(capacity) && position < capacity && cur != null
      ensures capacity == old(capacity) + Span(NewBlocks(old(capacity - position), n, baseSize), baseSize)
      ensures position + n <= capacity <==> Suffices(old(capacity - position), n, baseSize)
    {
      StoreLength();
      AddCapacity(n);
      StoreLength();
      FlattenPrefix(old(blocks), blocks);
    }

    /** The copy of write and the update of m_size. */
    method PutBytes(buf: seq<Byte>) returns (ok: bool)
      requires Valid() && cur != null && buf != [] && |Store()| == capacity
      modifies this`position, this`size, this`cur, this`at, this`blocks, set n | n in nodes :: n.ptr
      ensures ok <==> old(position) + |buf| <= capacity
      ensures ok ==> Valid() && position == old(position) + |buf|
      ensures ok ==> size == if old(size) > position then old(size) else position
      ensures ok ==> Store() == Over(old(Store()), old(position), buf)
    {
      ghost var s0, p0 := Store(), position;
      assert Over(s0, p0, buf[..0]) == s0;
      ok := WriteLoop(buf, s0, p0);
      if ok {
        assert buf[..|buf|] == buf;
        if position > size {
          size := position;
        }
      }
    }

    lemma OverShows(s0: seq<Byte>, s1: seq<Byte>, p0: nat, size0: nat, buf: seq<Byte>)
      requires s0 <= s1 && p0 <= |s0| && p0 + |buf| <= |s1| && Store() == Over(s1, p0, buf)
      requires position == p0 + |buf| && size == (if size0 > position then size0 else position)
      ensures Wrote(s0, p0, size0, buf)
    {
    }

    /** write.  The list runs out under the copy (a null node is dereferenced) exactly if addCapacity
        fell short; otherwise the bytes are in place and nothing else has changed. */
    method Write(buf: seq<Byte>) returns (ok: bool)
      requires Valid()
      modifies Repr
      ensures ok <==> Suffices(old(capacity - position), |buf|, baseSize)
      ensures ok ==> Valid() && fresh(Repr - old(Repr)) && little == old(little)
      ensures ok ==> Wrote(old(Store()), old(position), old(size), buf) && |Store()| == capacity
      ensures ok ==> capacity - position == FreeAfter(old(capacity - position), |buf|, baseSize)
    {
      if |buf| == 0 {
        StoreLength();
        return true;
      }
      MakeRoom(|buf|);
      ghost var s1 := Store();
      ok := PutBytes(buf);
      SpanIsProduct(NewBlocks(old(capacity - position), |buf|, baseSize), baseSize);
      if ok {
        OverShows(old(Store()), s1, old(position), old(size), buf);
      }
    }

    /** The rest of the block under an offset is the storage from there on. */
    lemma BlockSlice(q: nat, off: nat, n: nat)
      requires ListOk() && q < |nodes| && off + n <= baseSize
      ensures Span(q, baseSize) + off + n <= |Store()|
      ensures nodes[q].ptr[off..off + n] == Store()[Span(q, baseSize) + off..Span(q, baseSize) + off + n]
    {
      StoreLength();
      FlattenSlice(blocks, q, baseSize, off, n);
      NodeHoldsBlock(q, off, n);
    }

    /** The first `i` bytes after `p0` have been read. */
    ghost predicate HasRead(p0: nat, data: seq<Byte>)
      reads this, Repr
    {
      && ListOk() && capacity == Span(|nodes|, baseSize) == |Store()| && CursorFits()
      && position == p0 + |data| <= capacity && data == Store()[p0..position]
    }

    /** The next `m` bytes of the current block go on where `data` ends. */
    lemma ReadMore(m: nat, npos: nat, ncap: nat, p0: nat, data: seq<Byte>)
      requires HasRead(p0, data) && Standing(npos, ncap) && m <= ncap
      ensures position + m <= |Store()| && npos + m <= cur.ptr.Length
      ensures data + cur.ptr[npos..npos + m] == Store()[p0..position + m]
    {
      BlockSlice(at, npos, m);
      JoinSlices(Store(), p0, position, position + m, data, cur.ptr[npos..npos + m]);
    }

    method ReadRound(m: nat, npos: nat, ncap: nat, ghost p0: nat, data: seq<Byte>) returns (more: seq<Byte>)
      requires HasRead(p0, data) && Standing(npos, ncap) && m <= ncap
      modifies this`position, this`cur, this`at
      ensures |more| == |data| + m && HasRead(p0, more)
      ensures cur != null && m == ncap ==> Standing(0, baseSize)
      ensures cur == null ==> position == capacity
    {
      ReadMore(m, npos, ncap, p0, data);
      more := data + cur.ptr[npos..npos + m];
      Advance(m, npos, ncap);
    }

    /** The copying loop of read. */
    method ReadLoop(n: nat) returns (data: seq<Byte>)
      requires HasRead(position, []) && cur != null && position + n <= capacity
      modifies this`position, this`cur, this`at
      ensures |data| == n && HasRead(old(position), data)
    {
      ghost var p0 := position;
      var npos: nat, ncap: nat := Offset();
      var left: nat := n;
      data := [];
      while left > 0
        invariant HasRead(p0, data) && |data| + left == n && p0 + n <= capacity
        invariant left > 0 ==> Standing(npos, ncap)
        decreases left
      {
        var m := if ncap >= left then left else ncap;
        data := ReadRound(m, npos, ncap, p0, data);
        left := left - m;
        if left > 0 {
          ncap := cur.size;
          npos := 0;
        }
      }
    }

    /** read.  It throws exactly if more than the readable bytes are asked for; it dereferences a null
        cursor exactly if nothing is asked for at the very end of the storage; otherwise it returns the
        next bytes of the flat storage and moves past them. */
    method Read(n: nat) returns (r: ReadResult)
      requires Valid()
      modifies this`position, this`cur, this`at
      ensures Valid() && |Store()| == capacity
      ensures r.OutOfRange? <==> n > size - old(position)
      ensures r.NullCursor? <==> n == 0 && old(position) == capacity
      ensures !r.Bytes? ==> position == old(position)
      ensures r.Bytes? ==> position == old(position) + n && r.data == Store()[old(position)..position]
    {
      StoreLength();
      CursorPlace();
      if n > size - position {
        return OutOfRange;
      }
      if cur == null {
        return NullCursor;
      }
      var data := ReadLoop(n);
      r := Bytes(data);
    }

    /** The walk of setPosition: the node that holds byte `pos`, or null at the end of the storage. */
    method Seek(pos: nat) returns (node: Node?, ghost q: nat)
      requires ListOk() && capacity == Span(|nodes|, baseSize) && pos <= capacity
      ensures InBlock(q, pos) && node == if q < |nodes| then nodes[q] else null
    {
      var n: Node := root;
      q := 0;
      var left: nat := pos;
      while left > n.size
        invariant q < |nodes| && n == nodes[q] && pos == Span(q, baseSize) + left
        decreases left
      {
        assert Span(q + 1, baseSize) == Span(q, baseSize) + baseSize;
        left := left - n.size;
        n := n.next;
        q := q + 1;
      }
      node := n;
      assert Span(q + 1, baseSize) == Span(q, baseSize) + baseSize;
      if left == n.size {
        node := n.next;
        q := q + 1;
      }
    }

    /** setPosition: throws exactly beyond the capacity; moving past m_size extends it. */
    method SetPosition(pos: nat) returns (ok: bool)
      requires Valid()
      modifies this`position, this`size, this`cur, this`at
      ensures Valid() && (ok <==> pos <= capacity)
      ensures ok ==> position == pos && size == if pos > old(size) then pos else old(size)
      ensures !ok ==> position == old(position) && size == old(size)
    {
      if pos > capacity {
        return false;
      }
      position := pos;
      if position > size {
        size := position;
      }
      cur, at := Seek(pos);
      ok := true;
    }

    /** clear: back to one node, whose bytes stay. */
    method Clear()
      requires Valid()
      modifies this, root
      ensures Valid() && Repr == old(Repr)
      ensures position == 0 && size == 0 && capacity == baseSize && little == old(little)
      ensures Store() == old(Store())[..baseSize]
    {
      StoreLength();
      FlattenSplit(blocks, 0, baseSize);
      position, size, capacity, cur := 0, 0, baseSize, root;
      root.next := null;
      nodes, blocks, at := [root], [blocks[0]], 0;
      assert Flatten(blocks) == blocks[0] by { assert blocks[1..] == []; }
    }

    // ----- views that move nothing

    /** The stretch of storage from offset `npos` of block `q` on, cut at block boundaries. */
    ghost function Tiles(q: nat, npos: nat, len: nat): (segs: seq<Segment>)
      reads this, Repr
      requires ListOk() && npos < baseSize
      decreases len
    {
      if len == 0 || q >= |nodes| then []
      else
        var m := if baseSize - npos >= len then len else baseSize - npos;
        [Segment(nodes[q].ptr, npos, m)] + Tiles(q + 1, 0, len - m)
    }

    lemma NodeHoldsBlock(q: nat, off: nat, n: nat)
      requires ListOk() && q < |nodes| && off + n <= baseSize
      ensures |blocks[q]| == baseSize && nodes[q].ptr[off..off + n] == blocks[q][off..off + n]
    {
      assert nodes[q].ptr[..] == blocks[q];
      assert nodes[q].ptr[off..off + n] == nodes[q].ptr[..][off..off + n];
    }

    lemma {:induction false} TilesWalk(q: nat, npos: nat, len: nat)
      requires ListOk() && npos < baseSize && Uniform(blocks, baseSize)
      ensures forall s :: s in Tiles(q, npos, len) ==> s.offset + s.len <= s.base.Length
      ensures Gathered(Tiles(q, npos, len)) == Walk(blocks, baseSize, q, npos, len)
      decreases len
    {
      if len > 0 && q < |nodes| {
        var m := if baseSize - npos >= len then len else baseSize - npos;
        TilesWalk(q + 1, 0, len - m);
        assert Tiles(q, npos, len) == [Segment(nodes[q].ptr, npos, m)] + Tiles(q + 1, 0, len - m);
        TileGathers(q, npos, m, Tiles(q + 1, 0, len - m));
      }
    }

    /** One tile before others. */
    lemma TileGathers(q: nat, npos: nat, m: nat, rest: seq<Segment>)
      requires ListOk() && q < |nodes| && npos + m <= baseSize
      requires forall s :: s in rest ==> s.offset + s.len <= s.base.Length
      ensures forall s :: s in [Segment(nodes[q].ptr, npos, m)] + rest ==> s.offset + s.len <= s.base.Length
      ensures |blocks[q]| == baseSize
      ensures Gathered([Segment(nodes[q].ptr, npos, m)] + rest) == blocks[q][npos..npos + m] + Gathered(rest)
    {
      NodeHoldsBlock(q, npos, m);
      GatheredCons(Segment(nodes[q].ptr, npos, m), rest);
    }

    /** Successive tiles come from successive nodes... */
    lemma {:induction false} TileAt(q: nat, npos: nat, len: nat, i: nat)
      requires ListOk() && npos < baseSize && i < |Tiles(q, npos, len)|
      ensures q + i < |nodes| && Tiles(q, npos, len)[i].base == nodes[q + i].ptr
      decreases len
    {
      var m := if baseSize - npos >= len then len else baseSize - npos;
      if i > 0 {
        TileAt(q + 1, 0, len - m, i - 1);
      }
    }

    /** ...so no two of them overlap. */
    lemma TilesDisjoint(q: nat, npos: nat, len: nat)
      requires ListOk() && npos < baseSize
      ensures forall i, j :: 0 <= i < j < |Tiles(q, npos, len)| ==>
        Tiles(q, npos, len)[i].base != Tiles(q, npos, len)[j].base
    {
      var segs := Tiles(q, npos, len);
      forall i, j | 0 <= i < j < |segs| ensures segs[i].base != segs[j].base {
        TileAt(q, npos, len, i);
        TileAt(q, npos, len, j);
      }
    }

    /** Such tiles lie inside their nodes and together are exactly the next `len` bytes of storage. */
    lemma TilesAreStorage(q: nat, npos: nat, len: nat)
      requires ListOk() && npos < baseSize && q <= |nodes|
      requires Span(q, baseSize) + npos + len <= Span(|nodes|, baseSize)
      ensures forall s :: s in Tiles(q, npos, len) ==> s.offset + s.len <= s.base.Length
      ensures var p := Span(q, baseSize) + npos;
              p + len <= |Store()| && Gathered(Tiles(q, npos, len)) == Store()[p..p + len]
    {
      StoreLength();
      TilesWalk(q, npos, len);
      WalkIsSlice(blocks, baseSize, q, npos, Span(q, baseSize) + npos, Span(q, baseSize) + npos + len);
    }

    /** Where the walk for `len` bytes is: at a node, with `left` bytes to go, or done. */
    ghost predicate WalkAt(node: Node?, q: nat, npos: nat, left: nat, len: nat, segs: seq<Segment>)
      reads this, Repr
    {
      && ListOk() && capacity == Span(|nodes|, baseSize) && npos < baseSize && Tiling(segs, q, npos, left, len)
      && (left > 0 ==> q < |nodes| && node == nodes[q] && Span(q, baseSize) + npos + left == position + len)
      && (left == 0 ==> position + len <= capacity)
    }

    lemma WalkStarts(npos: nat, ncap: nat, len: nat)
      requires ListOk() && capacity == Span(|nodes|, baseSize) && Standing(npos, ncap) && position <= capacity
      ensures WalkAt(cur, at, npos, len, len, [])
    {
      assert [] + Tiles(at, npos, len) == Tiles(at, npos, len);
    }

    lemma WalkEnds(node: Node?, q: nat, npos: nat, len: nat, segs: seq<Segment>)
      requires WalkAt(node, q, npos, 0, len, segs)
      ensures position + len <= capacity && 0 <= position - Span(at, baseSize) < baseSize
      ensures segs == Tiles(at, position - Span(at, baseSize), len)
    {
    }

    /** One segment and the move to the next node, which may be missing. */
    method SegmentStep(node: Node, ghost q: nat, npos: nat, left: nat, ghost len: nat, segs: seq<Segment>)
      returns (node': Node?, left': nat, more: seq<Segment>)
      requires WalkAt(node, q, npos, left, len, segs) && left > 0
      ensures left' < left
      ensures left' > 0 && node' == null ==> position + len > capacity
      ensures (left' > 0 && node' == null) || WalkAt(node', q + 1, 0, left', len, more)
    {
      TileStep(q, npos, left, position + len);
      TileNext(segs, q, npos, left, len);
      var m := if node.size - npos >= left then left else node.size - npos;
      more := segs + [Segment(node.ptr, npos, m)];
      left' := left - m;
      node' := if left' > 0 then node.next else null;
    }

    method SegmentsFrom(start: nat, len: nat) returns (ok: bool, segs: seq<Segment>)
      requires WalkAt(cur, at, start, len, len, [])
      ensures ok <==> position + len <= capacity
      ensures ok ==>
        0 <= position - Span(at, baseSize) < baseSize && segs == Tiles(at, position - Span(at, baseSize), len)
    {
      var node: Node?, npos: nat, left: nat := cur, start, len;
      ghost var q: nat := at;
      segs := [];
      while left > 0
        invariant WalkAt(node, q, npos, left, len, segs)
        decreases left
      {
        node, left, segs := SegmentStep(node, q, npos, left, len, segs);
        if left > 0 && node == null {
          return false, segs;
        }
        q, npos := q + 1, 0;
      }
      WalkEnds(node, q, npos, len, segs);
      ok := true;
    }

    /** The walk of getReadBuffers and getWriteBuffers, from a cursor that is not null.  It runs off the list
        (a null node is dereferenced) exactly if the storage is too short. */
    method Segments(len: nat) returns (ok: bool, segs: seq<Segment>)
      requires ListOk() && capacity == Span(|nodes|, baseSize) && CursorFits() && cur != null
      ensures ok <==> position + len <= capacity
      ensures ok ==>
        0 <= position - Span(at, baseSize) < baseSize && segs == Tiles(at, position - Span(at, baseSize), len)
    {
      var npos: nat, ncap: nat := Offset();
      WalkStarts(npos, ncap, len);
      ok, segs := SegmentsFrom(npos, len);
    }

    /** `segs` are the tiles before the last `left` bytes. */
    ghost predicate Tiling(segs: seq<Segment>, q: nat, npos: nat, left: nat, len: nat)
      reads this, Repr
      requires ListOk() && npos < baseSize
    {
      && Span(at, baseSize) <= position < Span(at, baseSize) + baseSize
      && segs + Tiles(q, npos, left) == Tiles(at, position - Span(at, baseSize), len)
    }

    lemma TileNext(segs: seq<Segment>, q: nat, npos: nat, left: nat, len: nat)
      requires ListOk() && q < |nodes| && npos < baseSize && left > 0 && Tiling(segs, q, npos, left, len)
      ensures var m := if baseSize - npos >= left then left else baseSize - npos;
              Tiling(segs + [Segment(nodes[q].ptr, npos, m)], q + 1, 0, left - m, len)
    {
      var m := if baseSize - npos >= left then left else baseSize - npos;
      assert Tiles(q, npos, left) == [Segment(nodes[q].ptr, npos, m)] + Tiles(q + 1, 0, left - m);
      Reassociate(segs, Segment(nodes[q].ptr, npos, m), Tiles(q + 1, 0, left - m));
    }

    /** One block of that walk, towards byte `e`: it ends there, goes on in the next block, or finds no next
        block and the storage too short. */
    lemma TileStep(q: nat, npos: nat, left: nat, e: nat)
      requires q < |nodes| && npos < baseSize && left > 0 && Span(q, baseSize) + npos + left == e
      ensures left <= baseSize - npos ==> e <= Span(|nodes|, baseSize)
      ensures left > baseSize - npos ==> Span(q + 1, baseSize) + (left - (baseSize - npos)) == e
      ensures left > baseSize - npos && q + 1 == |nodes| ==> e > Span(|nodes|, baseSize)
    {
      SpanMonotone(q, |nodes|, baseSize);
      assert Span(q + 1, baseSize) == Span(q, baseSize) + baseSize;
    }

    /** `segs` are the tiles of the next `n` bytes of storage: in order, without overlap or gap, and
        denoting exactly those bytes. */
    ghost predicate CoversNext(segs: seq<Segment>, n: nat)
      reads this, Repr, set s | s in segs :: s.base
      requires ListOk()
    {
      && (forall s :: s in segs ==> s.offset + s.len <= s.base.Length)
      && position + n <= |Store()| && Gathered(segs) == Store()[position..position + n]
      && (forall i, j :: 0 <= i < j < |segs| ==> segs[i].base != segs[j].base)
      && (n > 0 ==>
            && Span(at, baseSize) <= position < Span(at, baseSize) + baseSize
            && segs == Tiles(at, position - Span(at, baseSize), n))
    }

    lemma TilesCover(segs: seq<Segment>, n: nat)
      requires ListOk() && Span(at, baseSize) <= position < Span(at, baseSize) + baseSize && at <= |nodes|
      requires position + n <= Span(|nodes|, baseSize) && segs == Tiles(at, position - Span(at, baseSize), n)
      ensures CoversNext(segs, n)
    {
      TilesDisjoint(at, position - Span(at, baseSize), n);
      TilesAreStorage(at, position - Span(at, baseSize), n);
    }

    method NextSegments(n: nat) returns (ok: bool, segs: seq<Segment>)
      requires ListOk() && capacity == Span(|nodes|, baseSize) && CursorFits() && cur != null
      ensures ok <==> position + n <= capacity
      ensures ok ==> CoversNext(segs, n)
    {
      ok, segs := Segments(n);
      if ok {
        TilesCover(segs, n);
      }
    }

    /** getReadBuffers: segments of the next min(len, readable) bytes; nothing moves. */
    method GetReadBuffers(len: nat) returns (n: nat, segs: seq<Segment>)
      requires Valid()
      ensures n == if len > size - position then size - position else len
      ensures CoversNext(segs, n)
    {
      n := if len > size - position then size - position else len;
      segs := [];
      if n == 0 {
        StoreLength();
        return;
      }
      var ok;
      ok, segs := NextSegments(n);
    }

    /** getWriteBuffers: after addCapacity, segments that tile exactly the next `len` bytes of storage:
        what write would fill.  Like write it runs off the list exactly if addCapacity fell short. */
    method GetWriteBuffers(len: nat) returns (ok: bool, segs: seq<Segment>)
      requires Valid()
      modifies this`nodes, this`Repr, this`blocks, this`capacity, this`cur, nodes
      ensures ok <==> Suffices(old(capacity - position), len, baseSize)
      ensures Valid() && fresh(Repr - old(Repr)) && old(Store()) <= Store()
      ensures ok ==> CoversNext(segs, len)
    {
      if len == 0 {
        StoreLength();
        return true, [];
      }
      MakeRoom(len);
      ok, segs := NextSegments(len);
    }

    /** Where the const read starts: at its position's offset in the block of the cursor. */
    ghost function PeekStart(pos: nat): nat
      reads this
      requires baseSize >= 1
    {
      Span(at, baseSize) + pos % baseSize
    }

    /** That is the position itself exactly if the position lies in the cursor's block. */
    lemma PeekStartExactly(pos: nat)
      requires ListOk()
      ensures PeekStart(pos) == at * baseSize + pos % baseSize
      ensures PeekStart(pos) == pos <==> pos / baseSize == at
    {
      SpanIsProduct(at, baseSize);
      PositionSplit(baseSize, pos);
      if pos / baseSize != at {
        DifferentBlocks(pos / baseSize, at, baseSize);
      }
    }

    /** `data` are the bytes read so far from `start` on. */
    ghost predicate Peeked(start: nat, data: seq<Byte>)
      reads this
    {
      start + |data| <= |Store()| && data == Store()[start..start + |data|]
    }

    method PeekRound(node: Node, ghost q: nat, npos: nat, m: nat, ghost start: nat, data: seq<Byte>)
        returns (more: seq<Byte>)
      requires ListOk() && q < |nodes| && node == nodes[q] && npos + m <= baseSize
      requires Peeked(start, data) && Span(q, baseSize) + npos == start + |data|
      ensures |more| == |data| + m && Peeked(start, more)
    {
      BlockSlice(q, npos, m);
      JoinSlices(Store(), start, start + |data|, start + |data| + m, data, node.ptr[npos..npos + m]);
      more := data + node.ptr[npos..npos + m];
    }

    /** The loop of the const read, with its own walking pointer.  It runs off the list exactly if the storage
        is too short. */
    method PeekLoop(n: nat, pos: nat) returns (ok: bool, data: seq<Byte>)
      requires Valid() && cur != null
      ensures ok <==> PeekStart(pos) + n <= capacity
      ensures ok ==> |data| == n && Peeked(PeekStart(pos), data)
    {
      StoreLength();
      SpanMonotone(at, |nodes|, baseSize);
      var npos: nat := pos % baseSize;
      var ncap: nat := cur.size - npos;
      var node: Node? := cur;
      var left: nat := n;
      ghost var q: nat, start: nat := at, PeekStart(pos);
      data := [];
      while left > 0
        invariant |data| + left == n && Peeked(start, data)
        invariant left > 0 ==> q < |nodes| && node == nodes[q] && npos + ncap == baseSize && ncap > 0
        invariant left > 0 ==> Span(q, baseSize) + npos == start + |data|
        invariant left == 0 ==> start + n <= capacity
        decreases left
      {
        TileStep(q, npos, left, start + n);
        var m := if ncap >= left then left else ncap;
        data := PeekRound(node, q, npos, m, start, data);
        left := left - m;
        if left > 0 {
          node := node.next;
          if node == null {
            return false, data;
          }
          q := q + 1;
          ncap := node.size;
          npos := 0;
        }
      }
      ok := true;
    }

    /** The const read with a position.  It throws exactly if more than the readable bytes are asked for; it
        dereferences null exactly if the cursor is null or the walk runs off the list; otherwise it returns
        the bytes from PeekStart on: those at the position exactly if that is in the cursor's block. */
    method Peek(n: nat, pos: nat) returns (r: ReadResult)
      requires Valid()
      ensures r.OutOfRange? <==> n > size - position
      ensures r.NullCursor? <==> n <= size - position && (cur == null || PeekStart(pos) + n > capacity)
      ensures r.Bytes? ==> |r.data| == n && Peeked(PeekStart(pos), r.data)
    {
      if n > size - position {
        return OutOfRange;
      }
      if cur == null {
        return NullCursor;
      }
      var ok, data := PeekLoop(n, pos);
      r := if ok then Bytes(data) else NullCursor;
    }

    /** toString: the readable bytes. */
    method ToString() returns (str: seq<Byte>)
      requires Valid()
      ensures size <= |Store()| && str == Store()[position..size]
    {
      StoreLength();
      CursorPlace();
      str := [];
      if size - position == 0 {
        return;
      }
      PeekStartExactly(position);
      var r := Peek(size - position, position);
      str := r.data;
    }
  }
}
