/** Reading and writing files block by block, over direct and indirect blocks. */
module Minixfs {
  import opened Basics
  import opened FileBlocks
  import opened FileBytes

  datatype Error = NoSpace | NoEntry | IsDirectory

  datatype Result = Done(n: nat) | Failed(error: Error)

  /** The largest size the write accepts. */
  function MaxFileSize(g: Geometry): nat {
    (g.indirect + g.direct * g.direct) * g.blockSize
  }

  function BlocksNeeded(g: Geometry, end: nat): nat
    requires g.blockSize > 0
  {
    end / g.blockSize + if end % g.blockSize != 0 then 1 else 0
  }

  /** The first `count` slots of a file have blocks. */
  ghost predicate Filled(g: Geometry, m: Layout, n: Inumber, count: nat) {
    count <= Slots(g) && forall i: nat :: i < count ==> Ref(g, m, n, i) != UNASSIGNED
  }

  lemma BlockBefore(g: Geometry, x: nat, end: nat)
    requires g.blockSize > 0 && x < end
    ensures x / g.blockSize < BlocksNeeded(g, end)
  {
    var s := g.blockSize;
    Quotient(x, s);
    Quotient(end, s);
    Stride(end / s, x / s, s);
  }

  /** Enough blocks for the end of a range are enough for the range. */
  lemma FilledBacks(g: Geometry, m: Layout, n: Inumber, pos: nat, count: nat)
    requires g.blockSize > 0 && Filled(g, m, n, BlocksNeeded(g, pos + count))
    ensures Backed(g, m, n, pos, count)
  {
    hide Ref;
    forall x: nat | pos <= x < pos + count
      ensures Assigned(g, m, n, x)
    {
      BlockBefore(g, x, pos + count);
    }
  }

  /** Slots from `i` on are as they were, and so is the indirect slot until a slot needs it. */
  ghost predicate Untouched(g: Geometry, m: Layout, now: Layout, n: Inumber, i: nat) {
    && (forall j: nat :: i <= j < Slots(g) ==> Ref(g, now, n, j) == Ref(g, m, n, j))
    && (if i <= g.direct || Ref(g, m, n, Slots(g)) != UNASSIGNED then Ref(g, now, n, Slots(g)) == Ref(g, m, n, Slots(g))
        else Ref(g, now, n, Slots(g)) != UNASSIGNED)
  }

  lemma NoTable(g: Geometry, m: Layout, n: Inumber, i: nat)
    requires Good(g, m) && n in m.inodes && m.inodes[n].indirect == UNASSIGNED && g.direct <= i < Slots(g)
    ensures Ref(g, m, n, i) == UNASSIGNED
  {
    hide OneSlotEach;
  }

  lemma IndirectRef(g: Geometry, m: Layout, n: Inumber)
    requires n in m.inodes
    ensures Ref(g, m, n, Slots(g)) == m.inodes[n].indirect
  {
  }

  /** A filled indirect slot has its indirect block. */
  lemma IndirectFirst(g: Geometry, m: Layout, n: Inumber, i: nat)
    requires Good(g, m) && n in m.inodes && g.direct <= i < Slots(g) && Ref(g, m, n, i) != UNASSIGNED
    ensures Ref(g, m, n, Slots(g)) != UNASSIGNED
  {
    IndirectRef(g, m, n);
    if m.inodes[n].indirect == UNASSIGNED {
      NoTable(g, m, n, i);
    }
  }

  /** What slot `i` needs is what it adds to the shortfall. */
  lemma NeedIs(g: Geometry, m: Layout, now: Layout, n: Inumber, i: nat)
    requires Good(g, m) && Good(g, now) && n in m.inodes && n in now.inodes && i < Slots(g)
    requires Untouched(g, m, now, n, i)
    ensures Shortfall(g, m, n, i + 1) == Shortfall(g, m, n, i) + Need(g, now, n, i)
  {
    if i >= g.direct && Ref(g, m, n, i) != UNASSIGNED {
      IndirectFirst(g, m, n, i);
    }
    hide Good, Ref, Slots;
    assert Ref(g, now, n, i) == Ref(g, m, n, i) by {
      assert i < Slots(g);
    }
  }

  lemma StillUntouched(g: Geometry, m: Layout, mid: Layout, now: Layout, n: Inumber, i: nat)
    requires Untouched(g, m, mid, n, i) && OnlySlot(g, mid, now, n, i) && i < Slots(g)
    requires Good(g, now) && n in now.inodes && Ref(g, now, n, i) != UNASSIGNED
    ensures Untouched(g, m, now, n, i + 1)
  {
    if i >= g.direct {
      IndirectFirst(g, now, n, i);
    }
    hide Ref, Good;
  }

  /** Every file that is not a directory has the blocks its size needs. */
  ghost predicate Sized(g: Geometry, m: Layout)
    requires g.blockSize > 0
  {
    forall n: Inumber :: n in m.inodes && !m.inodes[n].isDirectory ==>
      Filled(g, m, n, BlocksNeeded(g, m.inodes[n].size))
  }

  function EmptyInode(g: Geometry): Inode {
    Inode(0, false, seq(g.direct, _ => UNASSIGNED), UNASSIGNED)
  }

  lemma AddFile(g: Geometry, m: Layout, n: Inumber)
    requires Good(g, m) && n !in m.inodes
    ensures Good(g, m.(inodes := m.inodes[n := EmptyInode(g)]))
    ensures forall p: Inumber, i: nat :: Ref(g, m.(inodes := m.inodes[n := EmptyInode(g)]), p, i) == Ref(g, m, p, i)
  {
    var after := m.(inodes := m.inodes[n := EmptyInode(g)]);
    forall p: Inumber, i: nat
      ensures Ref(g, after, p, i) == Ref(g, m, p, i)
    {
    }
    assert forall p: Inumber :: p in after.inodes ==> Shaped(g, after, p) by {
      assert forall p: Inumber :: p in m.inodes ==> Shaped(g, m, p);
    }
    hide Ref, Shaped;
  }

  lemma FilledNone(g: Geometry, m: Layout, n: Inumber)
    requires g.blockSize > 0
    ensures Filled(g, m, n, BlocksNeeded(g, 0))
  {
  }

  lemma SizedMore(g: Geometry, m: Layout, after: Layout, n: Inumber)
    requires g.blockSize > 0 && Sized(g, m) && n in after.inodes && after.inodes.Keys == m.inodes.Keys + {n}
    requires forall p: Inumber :: p in m.inodes && p != n ==> after.inodes[p] == m.inodes[p]
    requires forall p: Inumber, i: nat :: Ref(g, after, p, i) == Ref(g, m, p, i)
    requires after.inodes[n].isDirectory || Filled(g, m, n, BlocksNeeded(g, after.inodes[n].size))
    ensures Sized(g, after)
  {
    hide Ref, BlocksNeeded;
    forall p: Inumber | p in after.inodes && !after.inodes[p].isDirectory
      ensures Filled(g, after, p, BlocksNeeded(g, after.inodes[p].size))
    {
      assert p != n ==> Filled(g, m, p, BlocksNeeded(g, m.inodes[p].size));
    }
  }

  lemma NewIsSized(g: Geometry, m: Layout, n: Inumber)
    requires g.blockSize > 0 && Good(g, m) && n !in m.inodes && Sized(g, m)
    ensures Sized(g, m.(inodes := m.inodes[n := EmptyInode(g)]))
  {
    hide Good, Ref, Filled;
    AddFile(g, m, n);
    FilledNone(g, m, n);
    SizedMore(g, m, m.(inodes := m.inodes[n := EmptyInode(g)]), n);
  }

  lemma SetSize(g: Geometry, m: Layout, n: Inumber, size: nat)
    requires Good(g, m) && n in m.inodes
    ensures var after := m.(inodes := m.inodes[n := m.inodes[n].(size := size)]);
      && Good(g, after)
      && forall p: Inumber, i: nat :: Ref(g, after, p, i) == Ref(g, m, p, i)
  {
    var after := m.(inodes := m.inodes[n := m.inodes[n].(size := size)]);
    forall p: Inumber, i: nat
      ensures Ref(g, after, p, i) == Ref(g, m, p, i)
    {
    }
    assert forall p: Inumber :: p in after.inodes ==> Shaped(g, after, p) by {
      assert forall p: Inumber :: p in m.inodes ==> Shaped(g, m, p);
    }
    hide Ref, Shaped;
  }

  /** Where a file is to be created: its parent directory, an unused inode and the bytes of the entry. */
  datatype Spot = Spot(parent: Inumber, node: Inumber, entry: seq<Byte>)

  /** The slot of the directory that the next entry begins in. */
  function EntrySlot(g: Geometry, m: Layout, at: Spot): nat
    requires g.blockSize > 0 && at.parent in m.inodes
  {
    m.inodes[at.parent].size / g.blockSize
  }

  /** What looking up the parent and an unused inode promises; the directory has a slot left. */
  ghost predicate SpotIn(g: Geometry, m: Layout, at: Option<Spot>)
    requires g.blockSize > 0
  {
    at.Some? ==>
      && at.value.parent in m.inodes && m.inodes[at.value.parent].isDirectory
      && at.value.node !in m.inodes && |at.value.entry| == g.entry
      && EntrySlot(g, m, at.value) < Slots(g)
  }

  function EntryNeed(g: Geometry, m: Layout, at: Spot): nat
    requires g.blockSize > 0 && at.parent in m.inodes
  {
    Need(g, m, at.parent, EntrySlot(g, m, at))
  }

  /** The disk with the entry stored at position `size` of the directory. */
  function WithEntry(g: Geometry, m: Layout, bytes: seq<Byte>, at: Spot, size: nat): (r: seq<Byte>)
    requires g.blockSize > 0 && Good(g, m) && Assigned(g, m, at.parent, size)
    ensures |r| == |bytes|
  {
    WriteChunk(g, m, bytes, at.parent, size, at.entry, false)
  }

  /** The file has grown by `more` bytes and is otherwise the same kind of file. */
  predicate Became(was: Inode, now: Inode, more: nat) {
    now.size == was.size + more && now.isDirectory == was.isDirectory
  }

  /** How many bytes a range up to `end` adds to a file. */
  function Beyond(end: nat, size: nat): nat {
    if end > size then end - size else 0
  }

  /** A file can get the blocks for its first `end` bytes when `spare` blocks are free. */
  ghost predicate HasBlocks(g: Geometry, m: Layout, n: Inumber, end: nat, spare: int)
    requires g.blockSize > 0
  {
    BlocksNeeded(g, end) <= Slots(g) && Shortfall(g, m, n, BlocksNeeded(g, end)) <= spare
  }

  /** A write up to `end` creates the file at `path`. */
  ghost predicate Creates(g: Geometry, m: Layout, paths: map<string, Inumber>, path: string, at: Option<Spot>, end: nat)
    requires g.blockSize > 0 && SpotIn(g, m, at)
  {
    end <= MaxFileSize(g) && path !in paths && at.Some? && EntryNeed(g, m, at.value) <= Spare(g, m)
  }

  /** There are slots and blocks for a write up to `end`, after those for the entry of a file to be
      created. */
  ghost predicate Succeeds(g: Geometry, m: Layout, paths: map<string, Inumber>, path: string, at: Option<Spot>,
          end: nat)
    requires g.blockSize > 0 && SpotIn(g, m, at)
  {
    if path in paths then HasBlocks(g, m, paths[path], end, Spare(g, m))
    else at.Some? && HasBlocks(g, m, at.value.node, end, Spare(g, m) - EntryNeed(g, m, at.value))
  }

  lemma StrideUpTo(a: int, b: int, s: nat)
    requires a <= b
    ensures a * s <= b * s
  {
    if a < b {
      Stride(a, b, s);
    }
  }

  /** So many blocks and no fewer hold the first `end` bytes of a file. */
  lemma BlocksNeededExactly(g: Geometry, end: nat, count: nat)
    requires g.blockSize > 0
    ensures BlocksNeeded(g, end) <= count <==> end <= count * g.blockSize
  {
    var s, q := g.blockSize, end / g.blockSize;
    Quotient(end, s);
    if count <= q {
      StrideUpTo(count, q, s);
    } else {
      Stride(q, count, s);
    }
    if count < q {
      Stride(count, q, s);
    }
  }

  /** What fits in the slots of a file is not too large for the write. */
  lemma SlotsWithinLimit(g: Geometry, end: nat)
    requires g.blockSize > 0
    ensures BlocksNeeded(g, end) <= Slots(g) ==> end <= MaxFileSize(g)
  {
    BlocksNeededExactly(g, end, Slots(g));
    if g.direct > 0 {
      StrideUpTo(1, g.direct, g.direct);
    }
    StrideUpTo(Slots(g), g.indirect + g.direct * g.direct, g.blockSize);
  }

  /** No slot of any file loses its block. */
  ghost predicate KeepsBlocks(g: Geometry, m: Layout, after: Layout) {
    forall p: Inumber, i: nat :: Ref(g, m, p, i) != UNASSIGNED ==> Ref(g, after, p, i) == Ref(g, m, p, i)
  }

  lemma GoodShaped(g: Geometry, m: Layout, n: Inumber)
    requires Good(g, m) && n in m.inodes
    ensures |m.inodes[n].direct| == g.direct && Shaped(g, m, n)
    ensures m.inodes[n].indirect != UNASSIGNED ==>
      m.inodes[n].indirect in m.tables && |m.tables[m.inodes[n].indirect]| == g.indirect
  {
    hide Ref, OneSlotEach;
  }

  lemma TableRef(g: Geometry, m: Layout, n: Inumber, i: nat)
    requires Good(g, m) && n in m.inodes && m.inodes[n].indirect != UNASSIGNED && g.direct <= i < Slots(g)
    ensures Shaped(g, m, n) && i - g.direct < |m.tables[m.inodes[n].indirect]|
    ensures Ref(g, m, n, i) == m.tables[m.inodes[n].indirect][i - g.direct]
  {
    hide OneSlotEach;
    assert Shaped(g, m, n);
  }

  lemma GrowsKeeps(g: Geometry, m: Layout, after: Layout, n: Inumber, count: nat)
    requires Grows(g, m, after, n)
    ensures n in m.inodes ==> n in after.inodes
    ensures (forall j: nat :: j < count ==> Ref(g, m, n, j) != UNASSIGNED) ==>
      forall j: nat :: j < count ==> Ref(g, after, n, j) != UNASSIGNED
  {
    hide Ref;
  }

  lemma TargetIs(g: Geometry, m: Layout, n: Inumber, pos: nat, shipped: bool)
    requires g.blockSize > 0 && Good(g, m) && Assigned(g, m, n, pos)
    ensures pos / g.blockSize < Slots(g) && Ref(g, m, n, pos / g.blockSize) != UNASSIGNED
    ensures Target(g, Ref(g, m, n, pos / g.blockSize), pos % g.blockSize, shipped) >= 0
  {
    hide OneSlotEach;
    var b := Ref(g, m, n, pos / g.blockSize);
    assert b >= 0;
    hide Ref, Good;
    Times(b, g.blockSize);
    Times(b + pos % g.blockSize, g.blockSize);
  }

  lemma DiskGood(g: Geometry, m: Layout, bytes: seq<Byte>)
    requires Disk(g, m, bytes)
    ensures g.blockSize > 0 && Good(g, m)
  {
  }

  lemma BackedNone(g: Geometry, m: Layout, bytes: seq<Byte>, n: Inumber, off: nat)
    requires Disk(g, m, bytes)
    ensures Backed(g, m, n, off, 0) && ReadRange(g, m, bytes, n, off, 0) == []
  {
  }

  lemma BackedPart(g: Geometry, m: Layout, n: Inumber, off: nat, count: nat, from: nat, k: nat)
    requires g.blockSize > 0 && Backed(g, m, n, off, count) && from + k <= count
    ensures Backed(g, m, n, off + from, k)
  {
    hide Assigned;
  }

  lemma SizedBacks(g: Geometry, m: Layout, n: Inumber, off: nat, count: nat)
    requires g.blockSize > 0 && Sized(g, m) && n in m.inodes && !m.inodes[n].isDirectory
    requires off + count <= m.inodes[n].size
    ensures Backed(g, m, n, off, count)
  {
    FilledBacks(g, m, n, 0, m.inodes[n].size);
    BackedPart(g, m, n, 0, m.inodes[n].size, off, count);
  }

  lemma LastInside(g: Geometry, m: Layout, n: Inumber, pos: nat, y: nat)
    requires g.blockSize > 0 && Good(g, m) && Assigned(g, m, n, pos) && Assigned(g, m, n, y)
    ensures Address(g, m, n, y) < g.blocks * g.blockSize
  {
    hide Good, Ref;
  }

  /** The bytes of a chunk are next to each other on the disk. */
  lemma ChunkRead(g: Geometry, m: Layout, bytes: seq<Byte>, n: Inumber, pos: nat, k: nat)
    requires Disk(g, m, bytes) && Backed(g, m, n, pos, k) && Assigned(g, m, n, pos)
    requires 0 < k && pos % g.blockSize + k <= g.blockSize
    ensures Address(g, m, n, pos) + k <= |bytes|
    ensures ReadRange(g, m, bytes, n, pos, k) == bytes[Address(g, m, n, pos)..Address(g, m, n, pos) + k]
  {
    hide Ref, Good, Address, Assigned;
    ChunkPositions(g, m, n, pos, k);
    var at := Address(g, m, n, pos);
    LastInside(g, m, n, pos, pos + k - 1);
    forall i: nat | i < k
      ensures ReadRange(g, m, bytes, n, pos, k)[i] == bytes[at..at + k][i]
    {
      var y := pos + i;
      assert Address(g, m, n, y) == at + (y - pos);
      assert ReadRange(g, m, bytes, n, pos, k)[i] == ByteAt(g, m, bytes, n, y);
    }
  }

  lemma JoinRanges(g: Geometry, m: Layout, bytes: seq<Byte>, n: Inumber, off: nat, a: nat, b: nat)
    requires Disk(g, m, bytes) && Backed(g, m, n, off, a + b) && Backed(g, m, n, off, a) && Backed(g, m, n, off + a, b)
    ensures ReadRange(g, m, bytes, n, off, a + b)
         == ReadRange(g, m, bytes, n, off, a) + ReadRange(g, m, bytes, n, off + a, b)
  {
    hide Good, Assigned, ByteAt;
  }

  /** One more chunk. */
  lemma ReadMore(g: Geometry, m: Layout, bytes: seq<Byte>, n: Inumber, off: nat, done: nat, k: nat)
    requires Disk(g, m, bytes) && Backed(g, m, n, off, done + k) && Backed(g, m, n, off, done)
    requires 0 < k && (off + done) % g.blockSize + k <= g.blockSize && Assigned(g, m, n, off + done)
    ensures var at := Ref(g, m, n, (off + done) / g.blockSize) * g.blockSize + (off + done) % g.blockSize;
      && 0 <= at && at + k <= |bytes|
      && ReadRange(g, m, bytes, n, off, done + k) == ReadRange(g, m, bytes, n, off, done) + bytes[at..at + k]
  {
    hide Ref, Good, Address, Assigned;
    var pos := off + done;
    AddressIs(g, m, n, pos);
    BackedPart(g, m, n, off, done + k, done, k);
    ChunkRead(g, m, bytes, n, pos, k);
    JoinRanges(g, m, bytes, n, off, done, k);
  }

  /** One chunk of a write. */
  lemma WriteMore(g: Geometry, m: Layout, bytes: seq<Byte>, n: Inumber, pos: nat, rest: seq<Byte>, shipped: bool)
    requires g.blockSize > 0 && Good(g, m) && Backed(g, m, n, pos, |rest|) && rest != []
    ensures var k := ChunkSize(g, pos, |rest|);
      && Assigned(g, m, n, pos) && Backed(g, m, n, pos + k, |rest| - k)
      && Target(g, Ref(g, m, n, pos / g.blockSize), pos % g.blockSize, shipped) >= 0
      && WriteFrom(g, m, bytes, n, pos, rest, shipped)
         == WriteFrom(g, m,
              Overwrite(bytes, Target(g, Ref(g, m, n, pos / g.blockSize), pos % g.blockSize, shipped), rest[..k]),
              n, pos + k, rest[k..], shipped)
  {
    hide Good, Ref, Slots;
    BackedTail(g, m, n, pos, |rest|, 0);
    BackedTail(g, m, n, pos, |rest|, ChunkSize(g, pos, |rest|));
    TargetIs(g, m, n, pos, shipped);
    hide Assigned, Overwrite, Target, ChunkSize, Backed;
  }

  lemma WroteAll(g: Geometry, m: Layout, bytes: seq<Byte>, n: Inumber, pos: nat, shipped: bool)
    requires Disk(g, m, bytes)
    ensures Backed(g, m, n, pos, 0) && WriteFrom(g, m, bytes, n, pos, [], shipped) == bytes
  {
  }

  lemma SameChunk(g: Geometry, a: Layout, b: Layout, bytes: seq<Byte>, n: Inumber, pos: nat, data: seq<Byte>,
          shipped: bool)
    requires g.blockSize > 0 && Good(g, a) && Good(g, b) && Assigned(g, a, n, pos)
    requires Ref(g, b, n, pos / g.blockSize) == Ref(g, a, n, pos / g.blockSize)
    ensures Assigned(g, b, n, pos)
    ensures WriteChunk(g, b, bytes, n, pos, data, shipped) == WriteChunk(g, a, bytes, n, pos, data, shipped)
  {
    hide Good, Ref;
  }

  lemma SameBacked(g: Geometry, a: Layout, b: Layout, n: Inumber, pos: nat, count: nat)
    requires g.blockSize > 0 && Backed(g, a, n, pos, count)
    requires forall p: Inumber, i: nat :: Ref(g, b, p, i) == Ref(g, a, p, i)
    ensures Backed(g, b, n, pos, count)
  {
    hide Ref;
    forall x: nat | pos <= x < pos + count
      ensures Assigned(g, b, n, x)
    {
      assert Assigned(g, a, n, x);
    }
  }

  lemma ChunkSmall(g: Geometry, pos: nat, left: nat)
    requires g.blockSize > 0 && left > 0
    ensures 0 < ChunkSize(g, pos, left) <= left
  {
  }

  /** Writing depends only on where the blocks are. */
  lemma {:induction false} SameRefs(g: Geometry, a: Layout, b: Layout, bytes: seq<Byte>, n: Inumber, pos: nat,
          buf: seq<Byte>, shipped: bool)
    requires g.blockSize > 0 && Good(g, a) && Good(g, b) && Backed(g, a, n, pos, |buf|)
    requires forall p: Inumber, i: nat :: Ref(g, b, p, i) == Ref(g, a, p, i)
    ensures Backed(g, b, n, pos, |buf|)
    ensures WriteFrom(g, b, bytes, n, pos, buf, shipped) == WriteFrom(g, a, bytes, n, pos, buf, shipped)
    decreases |buf|
  {
    hide Good, Ref, Backed, Assigned, WriteChunk, ChunkSize;
    SameBacked(g, a, b, n, pos, |buf|);
    if buf != [] {
      BackedTail(g, a, n, pos, |buf|, 0);
      var k := ChunkSize(g, pos, |buf|);
      ChunkSmall(g, pos, |buf|);
      BackedTail(g, a, n, pos, |buf|, k);
      SameChunk(g, a, b, bytes, n, pos, buf[..k], shipped);
      SameRefs(g, a, b, WriteChunk(g, a, bytes, n, pos, buf[..k], shipped), n, pos + k, buf[k..], shipped);
    }
  }

  lemma SizedGrows(g: Geometry, m: Layout, after: Layout, n: Inumber)
    requires g.blockSize > 0 && Sized(g, m) && Grows(g, m, after, n)
    ensures Sized(g, after)
  {
    hide Ref, BlocksNeeded;
    forall p: Inumber | p in after.inodes && !after.inodes[p].isDirectory
      ensures Filled(g, after, p, BlocksNeeded(g, after.inodes[p].size))
    {
      assert SameFile(m.inodes[p], after.inodes[p]);
    }
  }

  lemma KeepsOn(g: Geometry, a: Layout, b: Layout, c: Layout)
    ensures KeepsBlocks(g, a, a)
    ensures KeepsBlocks(g, a, b) && KeepsBlocks(g, b, c) ==> KeepsBlocks(g, a, c)
  {
    hide Ref;
  }

  lemma SameEntry(g: Geometry, m: Layout, after: Layout, bytes: seq<Byte>, at: Spot, size: nat)
    requires g.blockSize > 0 && Good(g, m) && Good(g, after) && KeepsBlocks(g, m, after)
    requires Assigned(g, m, at.parent, size)
    ensures Assigned(g, after, at.parent, size)
    ensures WithEntry(g, after, bytes, at, size) == WithEntry(g, m, bytes, at, size)
  {
    hide Good, Ref;
    SameChunk(g, m, after, bytes, at.parent, size, at.entry, false);
  }

  lemma {:induction false} SameShortfall(g: Geometry, m: Layout, after: Layout, n: Inumber, count: nat)
    requires forall i: nat :: Ref(g, after, n, i) == Ref(g, m, n, i)
    ensures Missing(g, after, n, count) == Missing(g, m, n, count)
    ensures Shortfall(g, after, n, count) == Shortfall(g, m, n, count)
  {
    hide Ref;
    if count > 0 {
      SameShortfall(g, m, after, n, count - 1);
    }
  }

  /** Creating a file takes no block from any file, and gives the new file none. */
  lemma OnlySlotKeeps(g: Geometry, m: Layout, after: Layout, at: Option<Spot>)
    requires g.blockSize > 0 && SpotIn(g, m, at)
    requires if at.None? then after == m else OnlySlot(g, m, after, at.value.parent, EntrySlot(g, m, at.value))
    ensures KeepsBlocks(g, m, after)
    ensures at.Some? ==> forall c: nat :: Shortfall(g, after, at.value.node, c) == Shortfall(g, m, at.value.node, c)
  {
    if at.Some? {
      forall c: nat
        ensures Shortfall(g, after, at.value.node, c) == Shortfall(g, m, at.value.node, c)
      {
        SameShortfall(g, m, after, at.value.node, c);
      }
    }
    hide Ref, Shortfall;
  }

  class FileSystem {
    const g: Geometry
    var layout: Layout
    var bytes: seq<Byte>
    var paths: map<string, Inumber>

    ghost predicate Valid()
      reads this
    {
      && Disk(g, layout, bytes) && Sized(g, layout)
      && forall p: string :: p in paths ==> paths[p] in layout.inodes
    }

    /** Give slot `i` of the file a block if it has none, with an indirect block before it if need be. */
    method EnsureBlock(n: Inumber, i: nat, pick: set<int> -> int) returns (ok: bool)
      requires Good(g, layout) && Honest(g, pick) && n in layout.inodes && i < Slots(g)
      modifies this`layout
      ensures Good(g, layout) && Grows(g, old(layout), layout, n) && OnlySlot(g, old(layout), layout, n, i)
      ensures ok <==> Need(g, old(layout), n, i) <= Spare(g, old(layout))
      ensures ok <==> Ref(g, layout, n, i) != UNASSIGNED
      ensures ok ==> Spare(g, layout) + Need(g, old(layout), n, i) == Spare(g, old(layout))
      ensures Ref(g, old(layout), n, i) != UNASSIGNED ==> layout == old(layout)
    {
      hide Good, OneSlotEach, Grows, SetRef, Shaped, Slots, Spare, Honest;
      GrowsNot(g, layout, n);
      GoodShaped(g, layout, n);
      PickOne(g, layout, pick);
      var node := layout.inodes[n];
      if i < g.direct {
        if node.direct[i] == UNASSIGNED {
          var b := pick(layout.used);
          if b == UNASSIGNED { return false; }
          SetRefKeeps(g, layout, n, i, b);
          SpareDrops(g, layout, n, i, b);
          layout := SetRef(g, layout, n, i, b);
        }
        return true;
      }
      if node.indirect == UNASSIGNED {
        var b := pick(layout.used);
        NoTable(g, layout, n, i);
        IndirectRef(g, layout, n);
        if b == UNASSIGNED { return false; }
        SetRefKeeps(g, layout, n, Slots(g), b);
        SpareDrops(g, layout, n, Slots(g), b);
        layout := SetRef(g, layout, n, Slots(g), b);
      }
      IndirectRef(g, layout, n);
      ghost var mid := layout;
      GoodShaped(g, layout, n);
      TableRef(g, layout, n, i);
      PickOne(g, layout, pick);
      if layout.tables[layout.inodes[n].indirect][i - g.direct] == UNASSIGNED {
        var c := pick(layout.used);
        if c == UNASSIGNED { return false; }
        SetRefKeeps(g, layout, n, i, c);
        SpareDrops(g, layout, n, i, c);
        layout := SetRef(g, layout, n, i, c);
        GrowsThrough(g, old(layout), mid, layout, n);
      }
      return true;
    }

    /** Blocks for the first `needed` slots: it succeeds exactly when the file has so many slots and enough
        blocks are free. */
    method MinBlockCount(n: Inumber, needed: nat, pick: set<int> -> int) returns (ok: bool)
      requires Good(g, layout) && Honest(g, pick) && n in layout.inodes
      modifies this`layout
      ensures Good(g, layout) && Grows(g, old(layout), layout, n)
      ensures ok <==> needed <= Slots(g) && Shortfall(g, old(layout), n, needed) <= Spare(g, old(layout))
      ensures ok ==> Filled(g, layout, n, needed)
      ensures ok ==> Spare(g, layout) + Shortfall(g, old(layout), n, needed) == Spare(g, old(layout))
    {
      hide Good, OneSlotEach, Grows, Ref, Slots, Honest, Spare;
      ghost var was := layout;
      GrowsNot(g, layout, n);
      var i := 0;
      while i < needed
        invariant 0 <= i <= needed && i <= Slots(g)
        invariant Good(g, layout) && Grows(g, was, layout, n) && n in layout.inodes
        invariant forall j: nat :: j < i ==> Ref(g, layout, n, j) != UNASSIGNED
        invariant Spare(g, layout) + Shortfall(g, was, n, i) == Spare(g, was)
        invariant Untouched(g, was, layout, n, i)
      {
        if i >= Slots(g) { return false; }
        ghost var mid := layout;
        NeedIs(g, was, layout, n, i);
        ShortfallGrows(g, was, n, i + 1, needed);
        var got := EnsureBlock(n, i, pick);
        GrowsThrough(g, was, mid, layout, n);
        GrowsKeeps(g, mid, layout, n, i);
        if !got { return false; }
        StillUntouched(g, was, mid, layout, n, i);
        i := i + 1;
      }
      return true;
    }

    /** One turn of the write loop: as much of `rest` as fits in the block at `pos`. */
    method WriteBlock(n: Inumber, rest: seq<Byte>, pos: nat,
            pick: set<int> -> int, shipped: bool) returns (ok: bool, size: nat)
      requires Disk(g, layout, bytes) && Honest(g, pick) && n in layout.inodes && Assigned(g, layout, n, pos)
      modifies this`layout, this`bytes
      ensures ok && layout == old(layout) && size == ChunkSize(g, pos, |rest|)
      ensures Disk(g, layout, bytes)
      ensures var at := Target(g, Ref(g, layout, n, pos / g.blockSize), pos % g.blockSize, shipped);
        at >= 0 && bytes == Overwrite(old(bytes), at, rest[..size])
    {
      hide Good, OneSlotEach, Grows, Ref, Slots, Honest, Target, Overwrite;
      TargetIs(g, layout, n, pos, shipped);
      var blockNum := pos / g.blockSize;
      ok := EnsureBlock(n, blockNum, pick);
      size := ChunkSize(g, pos, |rest|);
      var block := Ref(g, layout, n, blockNum);
      bytes := Overwrite(bytes, Target(g, block, pos % g.blockSize, shipped), rest[..size]);
    }

    /** The write loop.  Every block is there already, so it cannot fail. */
    method WriteBlocks(n: Inumber, buf: seq<Byte>, off: nat,
            pick: set<int> -> int, shipped: bool) returns (ok: bool, written: nat, pos: nat)
      requires Disk(g, layout, bytes) && Honest(g, pick) && n in layout.inodes && Backed(g, layout, n, off, |buf|)
      modifies this`layout, this`bytes
      ensures ok && written == |buf| && pos == off + |buf| && layout == old(layout) && Disk(g, layout, bytes)
      ensures bytes == WriteFrom(g, layout, old(bytes), n, off, buf, shipped)
    {
      hide Good, OneSlotEach, Grows, Ref, Slots, Honest, WriteFrom, Backed, Target, Overwrite, Assigned, Disk;
      DiskGood(g, layout, bytes);
      written, pos := 0, off;
      assert buf[0..] == buf;
      ghost var result := WriteFrom(g, layout, bytes, n, off, buf, shipped);
      while written < |buf|
        invariant 0 <= written <= |buf| && pos == off + written
        invariant layout == old(layout) && Disk(g, layout, bytes) && Backed(g, layout, n, pos, |buf| - written)
        invariant WriteFrom(g, layout, bytes, n, pos, buf[written..], shipped) == result
      {
        var rest := buf[written..];
        WriteMore(g, layout, bytes, n, pos, rest, shipped);
        var got, size := WriteBlock(n, rest, pos, pick, shipped);
        if !got { return false, written, pos; }
        ChunkSmall(g, pos, |rest|);
        assert rest[size..] == buf[written + size..];
        written := written + size;
        pos := pos + size;
      }
      WroteAll(g, layout, bytes, n, pos, shipped);
      ok := true;
    }

    /** A new file: its inode, and an entry behind the last one of its parent directory.  When there is
        no block for the entry the inode has been set up all the same, and stays without a path. */
    method CreateFile(path: string, at: Option<Spot>, pick: set<int> -> int) returns (ok: bool)
      requires Valid() && Honest(g, pick) && path !in paths && SpotIn(g, layout, at)
      modifies this
      ensures Valid()
      ensures ok <==> at.Some? && EntryNeed(g, old(layout), at.value) <= Spare(g, old(layout))
      ensures at.None? ==> layout == old(layout)
      ensures at.Some? ==>
        && OnlySlot(g, old(layout), layout, at.value.parent, EntrySlot(g, old(layout), at.value))
        && layout.inodes.Keys == old(layout.inodes).Keys + {at.value.node}
        && SameFile(EmptyInode(g), layout.inodes[at.value.node])
      ensures forall p: Inumber :: p in old(layout).inodes ==>
        Became(old(layout).inodes[p], layout.inodes[p], if ok && p == at.value.parent then g.entry else 0)
      ensures paths == if ok then old(paths)[path := at.value.node] else old(paths)
      ensures !ok ==> bytes == old(bytes)
      ensures ok ==> Spare(g, layout) + EntryNeed(g, old(layout), at.value) == Spare(g, old(layout))
      ensures ok ==> Assigned(g, layout, at.value.parent, old(layout).inodes[at.value.parent].size)
      ensures ok ==> bytes == WithEntry(g, layout, old(bytes), at.value, old(layout).inodes[at.value.parent].size)
    {
      hide Good, OneSlotEach, Ref, Slots, Honest, Filled, Sized, BlocksNeeded, FreeBlocks, Overwrite, Target;
      if at.None? {
        return false;
      }
      var Spot(parent, node, entry) := at.value;
      AddFile(g, layout, node);
      NewIsSized(g, layout, node);
      layout := layout.(inodes := layout.inodes[node := EmptyInode(g)]);
      ghost var added := layout;
      var pos := layout.inodes[parent].size;
      ok := EnsureBlock(parent, pos / g.blockSize, pick);
      SizedGrows(g, added, layout, parent);
      if !ok {
        return false;
      }
      TargetIs(g, layout, parent, pos, false);
      bytes := Overwrite(bytes, Target(g, Ref(g, layout, parent, pos / g.blockSize), pos % g.blockSize, false), entry);
      ghost var filled := layout;
      SetSize(g, layout, parent, pos + g.entry);
      layout := layout.(inodes := layout.inodes[parent := layout.inodes[parent].(size := pos + g.entry)]);
      SizedMore(g, filled, layout, parent);
      SameChunk(g, filled, layout, old(bytes), parent, pos, entry, false);
      paths := paths[path := node];
    }

    /** The second half of a write: blocks up to the end of the range, the write loop, the new size. */
    method Store(n: Inumber, buf: seq<Byte>, off: nat, pick: set<int> -> int, shipped: bool)
      returns (ok: bool, written: nat, pos: nat)
      requires Valid() && Honest(g, pick) && n in layout.inodes
      modifies this`layout, this`bytes
      ensures Valid()
      ensures ok <==> HasBlocks(g, old(layout), n, off + |buf|, Spare(g, old(layout)))
      ensures !ok ==> bytes == old(bytes)
      ensures ok ==> written == |buf| && pos == off + |buf| && Backed(g, layout, n, off, |buf|)
      ensures ok ==> bytes == WriteFrom(g, layout, old(bytes), n, off, buf, shipped)
      ensures layout.inodes.Keys == old(layout).inodes.Keys && KeepsBlocks(g, old(layout), layout)
      ensures forall p: Inumber :: p in old(layout).inodes ==>
        Became(old(layout).inodes[p], layout.inodes[p],
               if ok && p == n then Beyond(off + |buf|, old(layout).inodes[p].size) else 0)
    {
      hide Good, OneSlotEach, Ref, Slots, Honest, WriteFrom, Backed, Filled, Sized, BlocksNeeded, Shortfall, FreeBlocks;
      written, pos := 0, off;
      ok := MinBlockCount(n, BlocksNeeded(g, off + |buf|), pick);
      SizedGrows(g, old(layout), layout, n);
      if !ok {
        return;
      }
      FilledBacks(g, layout, n, off, |buf|);
      ok, written, pos := WriteBlocks(n, buf, off, pick, shipped);
      if off + |buf| > layout.inodes[n].size {
        ghost var wrote := layout;
        SetSize(g, layout, n, off + |buf|);
        layout := layout.(inodes := layout.inodes[n := layout.inodes[n].(size := off + |buf|)]);
        SameRefs(g, wrote, layout, old(bytes), n, off, buf, shipped);
        SizedMore(g, wrote, layout, n);
      }
    }

    /** Write `buf` at `off`, into a file that may have to be created first.  It succeeds exactly when
        the range is not too large and there are blocks enough for all of it; otherwise no byte changes
        but those of an entry for a file that could be created. */
    method Write(path: string, buf: seq<Byte>, off: nat, at: Option<Spot>, pick: set<int> -> int, shipped: bool)
      returns (r: Result, newOff: nat, ghost entered: seq<Byte>)
      requires Valid() && Honest(g, pick) && SpotIn(g, layout, at)
      modifies this
      ensures Valid()
      ensures r.Done? <==> Succeeds(g, old(layout), old(paths), path, at, off + |buf|)
      ensures r.Done? ==> r.n == |buf| && newOff == off + |buf| && path in paths && paths[path] in layout.inodes
      ensures r == Failed(NoEntry) <==> off + |buf| <= MaxFileSize(g) && path !in old(paths)
                                        && !Creates(g, old(layout), old(paths), path, at, off + |buf|)
      ensures r.Failed? ==> r.error in {NoEntry, NoSpace} && newOff == off && bytes == entered
      ensures off + |buf| > MaxFileSize(g) ==> layout == old(layout)
      ensures var created := Creates(g, old(layout), old(paths), path, at, off + |buf|);
        && paths == (if created then old(paths)[path := at.value.node] else old(paths))
        && (created ==> Assigned(g, layout, at.value.parent, old(layout).inodes[at.value.parent].size))
        && entered == (if created
                       then WithEntry(g, layout, old(bytes), at.value, old(layout).inodes[at.value.parent].size)
                       else old(bytes))
        && (forall p: Inumber :: p in old(layout).inodes ==>
              && p in layout.inodes
              && Became(old(layout).inodes[p], layout.inodes[p],
                        if r.Done? && p == paths[path] then Beyond(off + |buf|, old(layout).inodes[p].size)
                        else if created && p == at.value.parent then g.entry else 0))
      ensures r.Done? ==> Backed(g, layout, paths[path], off, |buf|)
      ensures r.Done? ==> bytes == WriteFrom(g, layout, entered, paths[path], off, buf, shipped)
      ensures r.Done? && path !in old(paths) ==>
        SameFile(EmptyInode(g).(size := off + |buf|), layout.inodes[paths[path]])
      ensures KeepsBlocks(g, old(layout), layout)
    {
      hide Good, OneSlotEach, Ref, Slots, Honest, WriteFrom, Backed, Filled, Sized, BlocksNeeded, Shortfall,
        FreeBlocks, WriteChunk, KeepsBlocks, Assigned, EntryNeed, Spare, MaxFileSize;
      newOff, entered := off, bytes;
      KeepsOn(g, layout, layout, layout);
      SlotsWithinLimit(g, off + |buf|);
      if off + |buf| > MaxFileSize(g) {
        return Failed(NoSpace), off, bytes;
      }
      if path !in paths {
        var ok := CreateFile(path, at, pick);
        OnlySlotKeeps(g, old(layout), layout, at);
        if !ok {
          return Failed(NoEntry), off, bytes;
        }
        entered := bytes;
      }
      ghost var found := layout;
      var ok, written, pos := Store(paths[path], buf, off, pick, shipped);
      KeepsOn(g, old(layout), found, layout);
      if path !in old(paths) {
        SameEntry(g, found, layout, old(bytes), at.value, old(layout).inodes[at.value.parent].size);
      }
      if !ok {
        return Failed(NoSpace), off, entered;
      }
      newOff := pos;
      r := Done(written);
    }

    /** The read loop. */
    method ReadBlocks(n: Inumber, toRead: nat, off: nat) returns (data: seq<Byte>)
      requires Disk(g, layout, bytes) && Backed(g, layout, n, off, toRead)
      ensures data == ReadRange(g, layout, bytes, n, off, toRead)
    {
      hide Good, OneSlotEach, Ref, Slots, ReadRange, Backed, Assigned, Disk, ChunkSize, Min;
      DiskGood(g, layout, bytes);
      data := [];
      var pos := off;
      BackedNone(g, layout, bytes, n, off);
      BackedPart(g, layout, n, off, toRead, 0, 0);
      while |data| < toRead
        invariant pos == off + |data| && |data| <= toRead
        invariant Backed(g, layout, n, off, |data|) && data == ReadRange(g, layout, bytes, n, off, |data|)
      {
        BackedPart(g, layout, n, off, toRead, |data|, toRead - |data|);
        BackedTail(g, layout, n, pos, toRead - |data|, 0);
        var size := ChunkSize(g, pos, toRead - |data|);
        var block := Ref(g, layout, n, pos / g.blockSize);
        var at := block * g.blockSize + pos % g.blockSize;
        BackedPart(g, layout, n, off, toRead, 0, |data| + size);
        BackedPart(g, layout, n, off, toRead, |data|, size);
        ReadMore(g, layout, bytes, n, off, |data|, size);
        data := data + bytes[at..at + size];
        pos := pos + size;
      }
    }

    /** What is left of the file at `off`, at most `count` bytes; nothing at or past its end. */
    method Read(path: string, count: nat, off: nat) returns (r: Result, data: seq<Byte>, newOff: nat)
      requires Valid()
      ensures path !in paths ==> r == Failed(NoEntry)
      ensures path in paths && off >= layout.inodes[paths[path]].size ==> r == Done(0)
      ensures path in paths && off < layout.inodes[paths[path]].size && layout.inodes[paths[path]].isDirectory ==>
        r == Failed(IsDirectory)
      ensures path in paths && off < layout.inodes[paths[path]].size && !layout.inodes[paths[path]].isDirectory ==>
        r == Done(Min(count, layout.inodes[paths[path]].size - off))
      ensures r.Done? ==>
        |data| == r.n && newOff == off + r.n && path in paths && Backed(g, layout, paths[path], off, r.n)
      ensures r.Done? ==> data == ReadRange(g, layout, bytes, paths[path], off, r.n)
      ensures r.Failed? ==> data == [] && newOff == off
    {
      hide Good, OneSlotEach, Ref, Slots, Backed, Filled, ReadRange, Disk, Sized;
      data, newOff := [], off;
      if path !in paths {
        return Failed(NoEntry), data, off;
      }
      var n := paths[path];
      var node := layout.inodes[n];
      DiskGood(g, layout, bytes);
      if off >= node.size {
        BackedNone(g, layout, bytes, n, off);
        return Done(0), data, off;
      }
      if node.isDirectory {
        return Failed(IsDirectory), data, off;
      }
      var toRead := Min(count, node.size - off);
      SizedBacks(g, layout, n, off, toRead);
      data := ReadBlocks(n, toRead, off);
      newOff := off + |data|;
      r := Done(|data|);
    }
  }

  /** Byte `x` of file `p` is the same before and after. */
  ghost predicate SameByte(g: Geometry, m: Layout, bytes: seq<Byte>, after: Layout, now: seq<Byte>, p: Inumber, x: nat)
    requires Disk(g, m, bytes) && Disk(g, after, now)
  {
    Assigned(g, m, p, x) ==> Assigned(g, after, p, x) && ByteAt(g, after, now, p, x) == ByteAt(g, m, bytes, p, x)
  }

  lemma SameAddress(g: Geometry, m: Layout, after: Layout, p: Inumber, x: nat)
    requires g.blockSize > 0 && Good(g, m) && Good(g, after) && Assigned(g, m, p, x)
    requires forall q: Inumber, i: nat :: Ref(g, m, q, i) != UNASSIGNED ==> Ref(g, after, q, i) == Ref(g, m, q, i)
    ensures Assigned(g, after, p, x) && Address(g, after, p, x) == Address(g, m, p, x)
  {
    hide Good, Ref;
  }

  /** The next entry does not run over the end of its block. */
  predicate EntryFits(g: Geometry, size: nat)
    requires g.blockSize > 0
  {
    size % g.blockSize + g.entry <= g.blockSize
  }

  /** While blocks and directories are made of whole entries, every next entry fits its block. */
  lemma WholeEntriesFit(g: Geometry, size: nat)
    requires g.blockSize > 0 && g.entry > 0 && g.blockSize % g.entry == 0 && size % g.entry == 0
    ensures EntryFits(g, size) && (size + g.entry) % g.entry == 0
  {
    var e, s := g.entry, g.blockSize;
    Quotient(s, e);
    Quotient(size, e);
    Quotient(size, s);
    var q, r, b := s / e, size / e, size / s;
    assert size % s == r * e - (b * q) * e == (r - b * q) * e by {
      assert b * s == b * (q * e) == (b * q) * e;
    }
    var t := r - b * q;
    if q <= t {
      StrideUpTo(q, t, e);
    } else {
      Stride(t, q, e);
    }
    SplitAddress((size + e) / e, (size + e) % e, r + 1, 0, e);
  }

  /** An entry that fits is at its positions of the directory and changes no other byte of any file. */
  lemma EntryMeant(g: Geometry, m: Layout, bytes: seq<Byte>, at: Spot, size: nat, p: Inumber, x: nat)
    requires Disk(g, m, bytes) && Assigned(g, m, at.parent, size) && Assigned(g, m, p, x)
    requires EntryFits(g, size) && |at.entry| == g.entry
    ensures ByteAt(g, m, WithEntry(g, m, bytes, at, size), p, x)
         == if p == at.parent && size <= x < size + g.entry then at.entry[x - size] else ByteAt(g, m, bytes, p, x)
  {
    hide Good, Ref, Address, Assigned;
    if g.entry > 0 {
      ChunkMeant(g, m, bytes, at.parent, size, at.entry, false, p, x);
    } else {
      assert WithEntry(g, m, bytes, at, size) == bytes;
    }
  }

  /** The disk after a write, before the read: what became of position `x` of file `p`. */
  lemma WroteByte(g: Geometry, m: Layout, bytes: seq<Byte>, after: Layout, entered: seq<Byte>, n: Inumber,
          off: nat, buf: seq<Byte>, shipped: bool, p: Inumber, x: nat)
    requires Disk(g, m, bytes) && Disk(g, after, entered) && Backed(g, after, n, off, |buf|)
    requires shipped && buf != [] ==> off % g.blockSize == 0
    requires SameByte(g, m, bytes, after, entered, p, x) && !(p == n && off <= x < off + |buf|)
    ensures Disk(g, after, WriteFrom(g, after, entered, n, off, buf, shipped))
    ensures SameByte(g, m, bytes, after, WriteFrom(g, after, entered, n, off, buf, shipped), p, x)
  {
    hide Good, Ref, Backed, WriteFrom, Assigned, ByteAt;
    if Assigned(g, m, p, x) {
      WriteStores(g, after, entered, n, off, buf, shipped, p, x);
    }
  }

  lemma KeptByte(g: Geometry, m: Layout, bytes: seq<Byte>, after: Layout, p: Inumber, x: nat)
    requires Disk(g, m, bytes) && Good(g, after) && KeepsBlocks(g, m, after)
    ensures SameByte(g, m, bytes, after, bytes, p, x)
  {
    hide Good, Ref;
    if Assigned(g, m, p, x) {
      SameAddress(g, m, after, p, x);
    }
  }

  lemma EnteredByte(g: Geometry, m: Layout, bytes: seq<Byte>, after: Layout, at: Spot, size: nat, p: Inumber, x: nat)
    requires Disk(g, m, bytes) && Good(g, after) && KeepsBlocks(g, m, after)
    requires Assigned(g, after, at.parent, size) && EntryFits(g, size) && |at.entry| == g.entry
    requires !(p == at.parent && size <= x < size + g.entry)
    ensures SameByte(g, m, bytes, after, WithEntry(g, after, bytes, at, size), p, x)
  {
    KeptByte(g, m, bytes, after, p, x);
    hide Good, Ref, Assigned, ByteAt, WithEntry, KeepsBlocks;
    if Assigned(g, m, p, x) {
      EntryMeant(g, after, bytes, at, size, p, x);
    }
  }

  /** `count` positions of a file. */
  datatype Range = Range(file: Inumber, start: nat, count: nat)

  const NOTHING := Range(0, 0, 0)

  predicate In(r: Range, p: Inumber, x: nat) {
    p == r.file && r.start <= x < r.start + r.count
  }

  /** Every byte of every file outside two ranges is what it was. */
  ghost predicate OthersStay(g: Geometry, m: Layout, bytes: seq<Byte>, after: Layout, now: seq<Byte>,
          a: Range, b: Range)
    requires Disk(g, m, bytes) && Disk(g, after, now)
  {
    forall p: Inumber, x: nat :: In(a, p, x) || In(b, p, x) || SameByte(g, m, bytes, after, now, p, x)
  }

  /** The file holds `data` from position `start` on. */
  ghost predicate Holds(g: Geometry, m: Layout, bytes: seq<Byte>, p: Inumber, start: nat, data: seq<Byte>)
    requires Disk(g, m, bytes)
  {
    forall x: nat :: start <= x < start + |data| ==>
      Assigned(g, m, p, x) && ByteAt(g, m, bytes, p, x) == data[x - start]
  }

  lemma EntryStage(g: Geometry, m: Layout, bytes: seq<Byte>, after: Layout, at: Spot, size: nat)
    requires Disk(g, m, bytes) && Good(g, after) && KeepsBlocks(g, m, after)
    requires Assigned(g, after, at.parent, size) && EntryFits(g, size) && |at.entry| == g.entry
    ensures var now := WithEntry(g, after, bytes, at, size);
      && Disk(g, after, now)
      && OthersStay(g, m, bytes, after, now, NOTHING, Range(at.parent, size, g.entry))
      && Holds(g, after, now, at.parent, size, at.entry)
  {
    hide Good, Ref, Assigned, ByteAt, WithEntry, KeepsBlocks, SameByte, Address;
    var now := WithEntry(g, after, bytes, at, size);
    forall p: Inumber, x: nat | !In(Range(at.parent, size, g.entry), p, x)
      ensures SameByte(g, m, bytes, after, now, p, x)
    {
      EnteredByte(g, m, bytes, after, at, size, p, x);
    }
    ChunkPositions(g, after, at.parent, size, g.entry);
    forall x: nat | size <= x < size + |at.entry|
      ensures Assigned(g, after, at.parent, x) && ByteAt(g, after, now, at.parent, x) == at.entry[x - size]
    {
      assert Assigned(g, after, at.parent, x);
      EntryMeant(g, after, bytes, at, size, at.parent, x);
    }
  }

  lemma WriteStage(g: Geometry, m: Layout, bytes: seq<Byte>, after: Layout, entered: seq<Byte>, n: Inumber,
          off: nat, buf: seq<Byte>, shipped: bool, entry: Range)
    requires Disk(g, m, bytes) && Disk(g, after, entered) && Backed(g, after, n, off, |buf|)
    requires shipped && buf != [] ==> off % g.blockSize == 0
    requires OthersStay(g, m, bytes, after, entered, NOTHING, entry)
    ensures var now := WriteFrom(g, after, entered, n, off, buf, shipped);
      && Disk(g, after, now)
      && OthersStay(g, m, bytes, after, now, Range(n, off, |buf|), entry)
  {
    hide Good, Ref, Assigned, ByteAt, WriteFrom, Backed, SameByte;
    var now := WriteFrom(g, after, entered, n, off, buf, shipped);
    WriteLength(g, after, entered, n, off, buf, shipped);
    forall p: Inumber, x: nat | !In(Range(n, off, |buf|), p, x) && !In(entry, p, x)
      ensures SameByte(g, m, bytes, after, now, p, x)
    {
      WroteByte(g, m, bytes, after, entered, n, off, buf, shipped, p, x);
    }
  }

  /** What a file holds outlives a write to another file. */
  lemma HoldsOn(g: Geometry, m: Layout, bytes: seq<Byte>, n: Inumber, off: nat, buf: seq<Byte>, shipped: bool,
          p: Inumber, start: nat, data: seq<Byte>)
    requires Disk(g, m, bytes) && Backed(g, m, n, off, |buf|) && Holds(g, m, bytes, p, start, data) && p != n
    requires shipped && buf != [] ==> off % g.blockSize == 0
    ensures Disk(g, m, WriteFrom(g, m, bytes, n, off, buf, shipped))
    ensures Holds(g, m, WriteFrom(g, m, bytes, n, off, buf, shipped), p, start, data)
  {
    hide Good, Ref, Assigned, ByteAt, WriteFrom, Backed;
    var now := WriteFrom(g, m, bytes, n, off, buf, shipped);
    WriteLength(g, m, bytes, n, off, buf, shipped);
    forall x: nat | start <= x < start + |data|
      ensures Assigned(g, m, p, x) && ByteAt(g, m, now, p, x) == data[x - start]
    {
      assert Assigned(g, m, p, x) && ByteAt(g, m, bytes, p, x) == data[x - start];
      WriteStores(g, m, bytes, n, off, buf, shipped, p, x);
    }
  }

  lemma KeptStage(g: Geometry, m: Layout, bytes: seq<Byte>, after: Layout)
    requires Disk(g, m, bytes) && Good(g, after) && KeepsBlocks(g, m, after)
    ensures Disk(g, after, bytes) && OthersStay(g, m, bytes, after, bytes, NOTHING, NOTHING)
  {
    hide Good, KeepsBlocks, SameByte;
    forall p: Inumber, x: nat
      ensures SameByte(g, m, bytes, after, bytes, p, x)
    {
      KeptByte(g, m, bytes, after, p, x);
    }
  }

  lemma SpotApart(g: Geometry, m: Layout, paths: map<string, Inumber>, at: Option<Spot>)
    requires g.blockSize > 0 && SpotIn(g, m, at)
    ensures at.Some? ==> at.value.parent in m.inodes && at.value.parent != at.value.node && |at.value.entry| == g.entry
  {
  }

  lemma EnteredDisk(g: Geometry, m: Layout, bytes: seq<Byte>, entered: seq<Byte>)
    requires g.blockSize > 0 && Good(g, m) && |bytes| == |entered| == g.blocks * g.blockSize
    ensures Disk(g, m, entered)
  {
  }

  /** A write and then a read of the same range.  If there is room the bytes written come back; in any
      case every other existing byte of every file stays, and the directory of a file that had to be
      created holds its entry: for any offset as meant and for block boundaries as shipped. */
  method WriteThenRead(fs: FileSystem, path: string, buf: seq<Byte>, off: nat, at: Option<Spot>,
          pick: set<int> -> int, shipped: bool)
    returns (r: Result, back: Result, data: seq<Byte>)
    requires fs.Valid() && Honest(fs.g, pick) && SpotIn(fs.g, fs.layout, at)
    requires shipped && buf != [] ==> off % fs.g.blockSize == 0
    modifies fs
    ensures fs.Valid()
    ensures r.Done? <==> Succeeds(fs.g, old(fs.layout), old(fs.paths), path, at, off + |buf|)
    ensures r.Done? ==> path in fs.paths && fs.paths[path] in fs.layout.inodes
    ensures path in old(fs.paths) ==> old(fs.paths)[path] in old(fs.layout).inodes
    ensures r.Done? && !(path in old(fs.paths) && old(fs.layout).inodes[old(fs.paths)[path]].isDirectory) ==>
      back == Done(|buf|) && data == buf
    ensures var wrote := if r.Done? then Range(fs.paths[path], off, |buf|) else NOTHING;
      if !Creates(fs.g, old(fs.layout), old(fs.paths), path, at, off + |buf|) then
        OthersStay(fs.g, old(fs.layout), old(fs.bytes), fs.layout, fs.bytes, wrote, NOTHING)
      else
        var dir, size := at.value.parent, old(fs.layout).inodes[at.value.parent].size;
        EntryFits(fs.g, size) ==>
          && OthersStay(fs.g, old(fs.layout), old(fs.bytes), fs.layout, fs.bytes, wrote, Range(dir, size, fs.g.entry))
          && Holds(fs.g, fs.layout, fs.bytes, dir, size, at.value.entry)
  {
    hide Good, Ref, Backed, WriteFrom, Sized, SameByte, Honest, Assigned, ByteAt, Succeeds, EntryNeed, KeepsBlocks,
      WithEntry, SpotIn;
    hide OthersStay, Holds;
    ghost var m, bytes, paths := fs.layout, fs.bytes, fs.paths;
    SpotApart(fs.g, m, paths, at);
    var newOff;
    ghost var entered;
    r, newOff, entered := fs.Write(path, buf, off, at, pick, shipped);
    ghost var entry, stored := NOTHING, false;
    if Creates(fs.g, m, paths, path, at, off + |buf|) {
      var size := m.inodes[at.value.parent].size;
      if EntryFits(fs.g, size) {
        EntryStage(fs.g, m, bytes, fs.layout, at.value, size);
        entry, stored := Range(at.value.parent, size, fs.g.entry), true;
      }
    } else {
      KeptStage(fs.g, m, bytes, fs.layout);
    }
    if r.Done? {
      ghost var n := fs.paths[path];
      EnteredDisk(fs.g, fs.layout, bytes, entered);
      if OthersStay(fs.g, m, bytes, fs.layout, entered, NOTHING, entry) {
        WriteStage(fs.g, m, bytes, fs.layout, entered, n, off, buf, shipped, entry);
      }
      if stored {
        HoldsOn(fs.g, fs.layout, entered, n, off, buf, shipped, at.value.parent, entry.start, at.value.entry);
      }
      RoundTrip(fs.g, fs.layout, entered, n, off, buf, shipped);
    }
    back, data, newOff := fs.Read(path, |buf|, off);
  }
}
