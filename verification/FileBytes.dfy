/** Where the bytes of a file are, and what writing a buffer block by block does to them, as shipped
    and as meant. */
module FileBytes {
  import opened Basics
  import opened FileBlocks

  ghost predicate Disk(g: Geometry, m: Layout, bytes: seq<Byte>) {
    g.blockSize > 0 && Good(g, m) && |bytes| == g.blocks * g.blockSize
  }

  /** Position `x` of file `n` has a block. */
  predicate Assigned(g: Geometry, m: Layout, n: Inumber, x: nat)
    requires g.blockSize > 0
  {
    x / g.blockSize < Slots(g) && Ref(g, m, n, x / g.blockSize) != UNASSIGNED
  }

  lemma Bounds(g: Geometry, b: int, o: nat)
    requires 0 <= b < g.blocks && o < g.blockSize
    ensures 0 <= b * g.blockSize + o < g.blocks * g.blockSize
  {
    assert (b + 1) * g.blockSize <= g.blocks * g.blockSize;
  }

  /** The address of position `x`: a byte offset within its block. */
  function Address(g: Geometry, m: Layout, n: Inumber, x: nat): (a: nat)
    requires g.blockSize > 0 && Good(g, m) && Assigned(g, m, n, x)
    ensures a < g.blocks * g.blockSize
  {
    Bounds(g, Ref(g, m, n, x / g.blockSize), x % g.blockSize);
    Ref(g, m, n, x / g.blockSize) * g.blockSize + x % g.blockSize
  }

  function ByteAt(g: Geometry, m: Layout, bytes: seq<Byte>, n: Inumber, x: nat): Byte
    requires Disk(g, m, bytes) && Assigned(g, m, n, x)
  {
    bytes[Address(g, m, n, x)]
  }

  lemma AddressIs(g: Geometry, m: Layout, n: Inumber, x: nat)
    requires g.blockSize > 0 && Good(g, m) && Assigned(g, m, n, x)
    ensures Address(g, m, n, x) == Ref(g, m, n, x / g.blockSize) * g.blockSize + x % g.blockSize
    ensures Ref(g, m, n, x / g.blockSize) != UNASSIGNED
  {
    hide Good, Ref;
  }

  lemma Quotient(x: nat, s: nat)
    requires s > 0
    ensures x == (x / s) * s + x % s
  {
  }

  lemma FromParts(x: nat, y: nat, s: nat)
    requires s > 0 && x / s == y / s && x % s == y % s
    ensures x == y
  {
    Quotient(x, s);
    Quotient(y, s);
  }

  lemma OneSlot(g: Geometry, m: Layout, n: Inumber, i: nat, p: Inumber, j: nat)
    requires Good(g, m) && Ref(g, m, n, i) != UNASSIGNED && Ref(g, m, n, i) == Ref(g, m, p, j)
    ensures n == p && i == j
  {
    hide Ref;
  }

  lemma Times(d: nat, s: nat)
    ensures 0 <= d * s
  {
  }

  lemma Stride(a: int, b: int, s: nat)
    ensures a < b ==> a * s + s <= b * s
  {
    if a < b {
      var d: nat := b - a - 1;
      Times(d, s);
      assert b * s == (a + 1 + d) * s;
    }
  }

  lemma SplitAddress(a: int, o: nat, b: int, q: nat, s: nat)
    requires o < s && q < s && a * s + o == b * s + q
    ensures a == b && o == q
  {
    if a != b {
      Stride(a, b, s);
      Stride(b, a, s);
    }
  }

  /** Different positions, of one file or two, have different addresses. */
  lemma AddressesApart(g: Geometry, m: Layout, n: Inumber, x: nat, p: Inumber, y: nat)
    requires g.blockSize > 0 && Good(g, m) && Assigned(g, m, n, x) && Assigned(g, m, p, y)
    ensures Address(g, m, n, x) == Address(g, m, p, y) ==> n == p && x == y
  {
    hide Good, Ref, Address, Assigned;
    if Address(g, m, n, x) == Address(g, m, p, y) {
      var i, j := x / g.blockSize, y / g.blockSize;
      AddressIs(g, m, n, x);
      AddressIs(g, m, p, y);
      SplitAddress(Ref(g, m, n, i), x % g.blockSize, Ref(g, m, p, j), y % g.blockSize, g.blockSize);
      OneSlot(g, m, n, i, p, j);
      FromParts(x, y, g.blockSize);
    }
  }

  // ---- writing ----------------------------------------------------------------------------------

  /** Copy `data` to address `at`; what falls outside the disk is lost. */
  function Overwrite(bytes: seq<Byte>, at: nat, data: seq<Byte>): (r: seq<Byte>)
    ensures |r| == |bytes|
  {
    seq<Byte>(|bytes|, i requires 0 <= i < |bytes| => if at <= i < at + |data| then data[i - at] else bytes[i])
  }

  /** Where a chunk goes.  The shipped write adds the offset to a pointer to blocks, so it counts
      blocks; the read, and the write as meant, count bytes. */
  function Target(g: Geometry, block: int, offset: nat, shipped: bool): int {
    if shipped then (block + offset) * g.blockSize else block * g.blockSize + offset
  }

  /** How much of the rest fits in the block at `pos`. */
  function ChunkSize(g: Geometry, pos: nat, left: nat): (n: nat)
    requires g.blockSize > 0
    ensures n <= left && pos % g.blockSize + n <= g.blockSize
    ensures left > 0 ==> n > 0
  {
    Min(g.blockSize - pos % g.blockSize, left)
  }

  function WriteChunk(g: Geometry, m: Layout, bytes: seq<Byte>, n: Inumber, pos: nat, data: seq<Byte>,
          shipped: bool): seq<Byte>
    requires g.blockSize > 0 && Good(g, m) && Assigned(g, m, n, pos)
  {
    var block := Ref(g, m, n, pos / g.blockSize);
    var at := Target(g, block, pos % g.blockSize, shipped);
    Overwrite(bytes, at, data)
  }

  /** Every position of the range has a block. */
  ghost predicate Backed(g: Geometry, m: Layout, n: Inumber, pos: nat, count: nat)
    requires g.blockSize > 0
  {
    forall x: nat :: pos <= x < pos + count ==> Assigned(g, m, n, x)
  }

  /** Write `buf` at `pos`, one block at a time. */
  ghost function WriteFrom(g: Geometry, m: Layout, bytes: seq<Byte>, n: Inumber, pos: nat, buf: seq<Byte>,
          shipped: bool): (r: seq<Byte>)
    requires g.blockSize > 0 && Good(g, m) && Backed(g, m, n, pos, |buf|)
    ensures |r| == |bytes|
    decreases |buf|
  {
    if buf == [] then bytes
    else
      assert Assigned(g, m, n, pos);
      var k := ChunkSize(g, pos, |buf|);
      WriteFrom(g, m, WriteChunk(g, m, bytes, n, pos, buf[..k], shipped), n, pos + k, buf[k..], shipped)
  }

  ghost function ReadRange(g: Geometry, m: Layout, bytes: seq<Byte>, n: Inumber, pos: nat, count: nat): (r: seq<Byte>)
    requires Disk(g, m, bytes) && Backed(g, m, n, pos, count)
    ensures |r| == count
  {
    seq<Byte>(count, i requires 0 <= i < count => ByteAt(g, m, bytes, n, pos + i))
  }

  lemma SameBlock(s: nat, pos: nat, x: nat, k: nat)
    requires s > 0 && pos % s + k <= s && pos <= x < pos + k
    ensures x / s == pos / s && x % s == pos % s + (x - pos)
  {
    var q, o := pos / s, pos % s + (x - pos);
    assert x == q * s + o;
    SplitAddress(x / s, x % s, q, o, s);
  }

  /** The positions of a chunk lie next to each other in its block. */
  lemma ChunkPositions(g: Geometry, m: Layout, n: Inumber, pos: nat, k: nat)
    requires g.blockSize > 0 && Good(g, m) && Assigned(g, m, n, pos) && pos % g.blockSize + k <= g.blockSize
    ensures Target(g, Ref(g, m, n, pos / g.blockSize), pos % g.blockSize, false) == Address(g, m, n, pos)
    ensures pos % g.blockSize == 0 ==> Target(g, Ref(g, m, n, pos / g.blockSize), 0, true) == Address(g, m, n, pos)
    ensures forall y: nat :: pos <= y < pos + k ==>
      Assigned(g, m, n, y) && Address(g, m, n, y) == Address(g, m, n, pos) + (y - pos)
  {
    hide Good, Ref;
    forall y: nat | pos <= y < pos + k
      ensures Assigned(g, m, n, y) && Address(g, m, n, y) == Address(g, m, n, pos) + (y - pos)
    {
      SameBlock(g.blockSize, pos, y, k);
    }
  }

  /** A chunk as meant changes its own positions and no other position of any file. */
  lemma ChunkMeant(g: Geometry, m: Layout, bytes: seq<Byte>, n: Inumber, pos: nat, data: seq<Byte>, shipped: bool,
          p: Inumber, x: nat)
    requires Disk(g, m, bytes) && Assigned(g, m, n, pos) && pos % g.blockSize + |data| <= g.blockSize && data != []
    requires shipped ==> pos % g.blockSize == 0
    requires Assigned(g, m, p, x)
    ensures ByteAt(g, m, WriteChunk(g, m, bytes, n, pos, data, shipped), p, x)
         == if p == n && pos <= x < pos + |data| then data[x - pos] else ByteAt(g, m, bytes, p, x)
  {
    hide Good, Ref, Address, Target;
    ChunkPositions(g, m, n, pos, |data|);
    var at := Address(g, m, n, pos);
    var a := Address(g, m, p, x);
    hide Assigned;
    if at <= a < at + |data| {
      AddressesApart(g, m, n, pos + (a - at), p, x);
    }
  }

  lemma NextAligned(s: nat, pos: nat, left: nat, k: nat)
    requires s > 0 && k == Min(s - pos % s, left)
    ensures k == left || (pos + k) % s == 0
  {
    if k != left {
      assert pos + k == (pos / s) * s + s == (pos / s + 1) * s;
      SplitAddress((pos + k) / s, (pos + k) % s, pos / s + 1, 0, s);
    }
  }

  lemma BackedTail(g: Geometry, m: Layout, n: Inumber, pos: nat, count: nat, k: nat)
    requires g.blockSize > 0 && Backed(g, m, n, pos, count) && k <= count
    ensures Backed(g, m, n, pos + k, count - k)
    ensures count > 0 ==> Assigned(g, m, n, pos)
  {
    hide Assigned;
  }

  lemma ChunkLength(g: Geometry, m: Layout, bytes: seq<Byte>, n: Inumber, pos: nat, data: seq<Byte>, shipped: bool)
    requires g.blockSize > 0 && Good(g, m) && Assigned(g, m, n, pos)
    ensures |WriteChunk(g, m, bytes, n, pos, data, shipped)| == |bytes|
  {
  }

  /** A write as meant, or a shipped write at a block boundary, stores the buffer at its positions and
      changes nothing else in any file. */
  lemma {:induction false} WriteStores(g: Geometry, m: Layout, bytes: seq<Byte>, n: Inumber, pos: nat,
          buf: seq<Byte>, shipped: bool, p: Inumber, x: nat)
    requires Disk(g, m, bytes) && Backed(g, m, n, pos, |buf|) && Assigned(g, m, p, x)
    requires shipped && buf != [] ==> pos % g.blockSize == 0
    ensures ByteAt(g, m, WriteFrom(g, m, bytes, n, pos, buf, shipped), p, x)
         == if p == n && pos <= x < pos + |buf| then buf[x - pos] else ByteAt(g, m, bytes, p, x)
    decreases |buf|
  {
    hide Good, Backed, Assigned, ByteAt, WriteChunk;
    if buf != [] {
      BackedTail(g, m, n, pos, |buf|, 0);
      var k := ChunkSize(g, pos, |buf|);
      ChunkMeant(g, m, bytes, n, pos, buf[..k], shipped, p, x);
      BackedTail(g, m, n, pos, |buf|, k);
      NextAligned(g.blockSize, pos, |buf|, k);
      ChunkLength(g, m, bytes, n, pos, buf[..k], shipped);
      WriteStores(g, m, WriteChunk(g, m, bytes, n, pos, buf[..k], shipped), n, pos + k, buf[k..], shipped, p, x);
    }
  }

  // ---- as shipped, off a block boundary ----------------------------------------------------------

  /** The first chunk of a shipped write off a block boundary misses its own block. */
  lemma FirstChunkMisses(g: Geometry, m: Layout, bytes: seq<Byte>, n: Inumber, pos: nat, data: seq<Byte>)
    requires Disk(g, m, bytes) && Assigned(g, m, n, pos) && pos % g.blockSize != 0
    ensures ByteAt(g, m, WriteChunk(g, m, bytes, n, pos, data, true), n, pos) == ByteAt(g, m, bytes, n, pos)
  {
    var s := g.blockSize;
    var b := Ref(g, m, n, pos / s);
    Stride(b, b + pos % s, s);
    assert Address(g, m, n, pos) < Target(g, b, pos % s, true);
  }

  /** So the first byte is still what it was when the write is done. */
  lemma FirstByteStays(g: Geometry, m: Layout, bytes: seq<Byte>, n: Inumber, pos: nat, buf: seq<Byte>)
    requires Disk(g, m, bytes) && Backed(g, m, n, pos, |buf|) && buf != [] && pos % g.blockSize != 0
    ensures Assigned(g, m, n, pos)
    ensures ByteAt(g, m, WriteFrom(g, m, bytes, n, pos, buf, true), n, pos) == ByteAt(g, m, bytes, n, pos)
  {
    hide Good, Backed, Assigned, ByteAt, WriteChunk;
    BackedTail(g, m, n, pos, |buf|, 0);
    var k := ChunkSize(g, pos, |buf|);
    FirstChunkMisses(g, m, bytes, n, pos, buf[..k]);
    BackedTail(g, m, n, pos, |buf|, k);
    NextAligned(g.blockSize, pos, |buf|, k);
    ChunkLength(g, m, bytes, n, pos, buf[..k], true);
    WriteStores(g, m, WriteChunk(g, m, bytes, n, pos, buf[..k], true), n, pos + k, buf[k..], true, n, pos);
  }

  /** Reading back what was written gives the buffer. */
  lemma RoundTrip(g: Geometry, m: Layout, bytes: seq<Byte>, n: Inumber, pos: nat, buf: seq<Byte>, shipped: bool)
    requires Disk(g, m, bytes) && Backed(g, m, n, pos, |buf|)
    requires shipped && buf != [] ==> pos % g.blockSize == 0
    ensures ReadRange(g, m, WriteFrom(g, m, bytes, n, pos, buf, shipped), n, pos, |buf|) == buf
  {
    forall i: nat | i < |buf|
      ensures Assigned(g, m, n, pos + i)
      ensures ByteAt(g, m, WriteFrom(g, m, bytes, n, pos, buf, shipped), n, pos + i) == buf[i]
    {
      assert Assigned(g, m, n, pos + i);
      WriteStores(g, m, bytes, n, pos, buf, shipped, n, pos + i);
    }
    hide Good, Backed, Assigned, ByteAt, WriteFrom;
  }

  /** Every buffer of `count` bytes comes back from a shipped write at `pos`. */
  ghost predicate AlwaysReturns(g: Geometry, m: Layout, bytes: seq<Byte>, n: Inumber, pos: nat, count: nat)
    requires Disk(g, m, bytes) && Backed(g, m, n, pos, count)
  {
    forall buf: seq<Byte> :: |buf| == count ==>
      ReadRange(g, m, WriteFrom(g, m, bytes, n, pos, buf, true), n, pos, count) == buf
  }

  lemma WriteLength(g: Geometry, m: Layout, bytes: seq<Byte>, n: Inumber, pos: nat, buf: seq<Byte>, shipped: bool)
    requires Disk(g, m, bytes) && Backed(g, m, n, pos, |buf|)
    ensures Disk(g, m, WriteFrom(g, m, bytes, n, pos, buf, shipped))
  {
  }

  lemma FirstRead(g: Geometry, m: Layout, bytes: seq<Byte>, n: Inumber, pos: nat, count: nat)
    requires Disk(g, m, bytes) && Backed(g, m, n, pos, count) && count > 0 && Assigned(g, m, n, pos)
    ensures ReadRange(g, m, bytes, n, pos, count)[0] == ByteAt(g, m, bytes, n, pos)
  {
  }

  /** As shipped the round trip holds for all buffers exactly at block boundaries, or for no bytes. */
  lemma ShippedRoundTrip(g: Geometry, m: Layout, bytes: seq<Byte>, n: Inumber, pos: nat, count: nat)
    requires Disk(g, m, bytes) && Backed(g, m, n, pos, count)
    ensures AlwaysReturns(g, m, bytes, n, pos, count) <==> pos % g.blockSize == 0 || count == 0
  {
    assert g.blockSize > 0 && Good(g, m);
    hide Disk, Good, Backed, WriteFrom;
    if pos % g.blockSize == 0 || count == 0 {
      forall buf: seq<Byte> | |buf| == count
        ensures ReadRange(g, m, WriteFrom(g, m, bytes, n, pos, buf, true), n, pos, count) == buf
      {
        RoundTrip(g, m, bytes, n, pos, buf, true);
      }
    } else {
      BackedTail(g, m, n, pos, count, 0);
      var was := ByteAt(g, m, bytes, n, pos);
      var other: Byte := if was == 0 then 1 else 0;
      var buf: seq<Byte> := seq<Byte>(count, _ => other);
      FirstByteStays(g, m, bytes, n, pos, buf);
      WriteLength(g, m, bytes, n, pos, buf, true);
      FirstRead(g, m, WriteFrom(g, m, bytes, n, pos, buf, true), n, pos, count);
      assert buf[0] == other;
    }
  }
}
