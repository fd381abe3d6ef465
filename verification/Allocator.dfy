/** malloc, calloc, free and realloc on byte memory: the doubly linked list of headers is kept in
    the very bytes the clients' payloads live in. */
module Allocator {
  import opened Basics
  import opened LittleEndian
  import opened AllocLayout
  import opened AllocBytes

  /** What a call comes to: a pointer or null, the end of the process, or a store beyond the break or
      behind the block it was meant for. */
  datatype Answer = Pointer(addr: nat) | Null | ExitProcess | Fault

  predicate Returned(r: Answer) {
    r.Pointer? || r.Null?
  }

  /** A null answer leaves the live blocks alone; a pointer leads to one new live block, large enough
      unless rounding wrapped. */
  ghost predicate HandedOut(was: set<Block>, now: set<Block>, n: nat, r: Answer) {
    && (r == Null ==> now == was)
    && (r.Pointer? ==> exists b :: b !in was && now == was + {b} && Payload(b) == r.addr
                                   && (n + ALIGN - 1 < WORD ==> b.size >= n))
  }

  /** The answer leads to the block, or there is none. */
  predicate Leads(r: Answer, b: Option<Block>) {
    r == if b.Some? then Pointer(Payload(b.value)) else Null
  }

  /** The chosen block is split and is not the last one. */
  predicate SplitsInside(bs: seq<Block>, k: nat, n: nat)
    requires k < |bs|
  {
    Splits(bs[k], n) && k + 1 < |bs|
  }

  /** The allocation takes a block that is split and is not the last one. */
  predicate SplitsInterior(bs: seq<Block>, n: nat)
    requires bs != []
  {
    match Pick(bs, n)
    case Some(k) => SplitsInside(bs, k, n)
    case None => false
  }

  /** Moving block `k` stores a header beyond the break, or its bytes behind the new block. */
  predicate MoveStrays(l: Layout, k: nat, size: nat, grant: bool, limit: nat)
    requires l.blocks != [] && k < |l.blocks|
  {
    || Strays(l, RoundUp(size), grant, limit)
    || (MallocLayout(l, size, grant && l.brk + RoundUp(size) + HDR <= limit).1.Some? && !CopyFits(l.blocks[k], size))
  }

  /** `a` is the payload address of live block `k`. */
  predicate PointsTo(bs: seq<Block>, k: nat, a: nat) {
    k < |bs| && !bs[k].free && Payload(bs[k]) == a
  }

  /** Exactly the bytes between the base and the break are mapped. */
  ghost predicate Backed(mem: Memory, base: nat, brk: nat) {
    forall x :: x in mem <==> base <= x < brk
  }

  function Zeros(n: nat): (bs: seq<Byte>)
    ensures |bs| == n
  {
    seq(n, _ => 0)
  }

  lemma BackedMapped(mem: Memory, base: nat, brk: nat, a: nat, n: nat)
    requires Backed(mem, base, brk) && base <= a && a + n <= brk
    ensures Mapped(mem, a, n)
  {
  }

  lemma OwnPayload(bs: seq<Block>, k: nat)
    requires k < |bs| && !bs[k].free
    ensures forall x :: Payload(bs[k]) <= x < End(bs[k]) ==> Owned(bs, x)
    ensures forall x :: Owned(bs[k := bs[k].(free := true)], x) ==> Owned(bs, x)
  {
    var fs := bs[k := bs[k].(free := true)];
    forall x | Owned(fs, x)
      ensures Owned(bs, x)
    {
      var i :| 0 <= i < |fs| && !fs[i].free && Payload(fs[i]) <= x < End(fs[i]);
      assert bs[i] == fs[i];
    }
  }

  lemma LiveOwned(a: seq<Block>, b: seq<Block>)
    requires Live(a) <= Live(b)
    ensures forall x :: Owned(a, x) ==> Owned(b, x)
  {
    forall x | Owned(a, x)
      ensures Owned(b, x)
    {
      var i :| 0 <= i < |a| && !a[i].free && Payload(a[i]) <= x < End(a[i]);
      assert a[i] in Live(b);
      var j :| 0 <= j < |b| && b[j] == a[i];
    }
  }

  lemma ReleasedOwned(l: Layout, k: nat)
    requires WellFormed(l) && k < |l.blocks| && !l.blocks[k].free
    ensures forall x :: Owned(l.blocks[k := l.blocks[k].(free := true)], x) ==> Owned(Release(l, k).blocks, x)
  {
    FreedKeeps(l, k);
    FreedLive(l.blocks, k);
    ReleaseKeeps(l, k);
    LiveOwned(l.blocks[k := l.blocks[k].(free := true)], Release(l, k).blocks);
  }

  lemma FoundAt(bs: seq<Block>, b: Block)
    requires InOrder(bs) && b in Live(bs)
    ensures IsLiveAt(bs, b.addr) && bs[IndexAt(bs, b.addr)] == b
  {
    var i :| 0 <= i < |bs| && bs[i] == b;
    assert bs[i].addr == b.addr && !bs[i].free;
    LiveAddressUnique(bs, bs[IndexAt(bs, b.addr)], b);
  }

  /** While malloc finds room, the block to be moved stays live where it is. */
  lemma MovePlan(l: Layout, k: nat, size: nat, grant: bool)
    requires WellFormed(l) && k < |l.blocks| && !l.blocks[k].free && size < WORD
    ensures var (t, b) := MallocLayout(l, size, grant);
      && (b.Some? ==> IsLiveAt(t.blocks, l.blocks[k].addr))
      && (b.Some? ==> t.blocks[IndexAt(t.blocks, l.blocks[k].addr)] == l.blocks[k])
      && (b.Some? ==> b.value != l.blocks[k] && b.value.size == RoundUp(size))
  {
    PayloadExact(l, size, grant);
    var (t, b) := MallocLayout(l, size, grant);
    if b.Some? {
      FoundAt(t.blocks, l.blocks[k]);
    }
  }

  /** After the copy and before the free: the new block's bytes and everyone else's outlive the free. */
  lemma MoveOwned(l: Layout, t: Layout, k: nat, j: nat, b: Block)
    requires WellFormed(l) && WellFormed(t) && k < |l.blocks| && !l.blocks[k].free
    requires j < |t.blocks| && t.blocks[j] == l.blocks[k] && b != l.blocks[k]
    requires Live(t.blocks) == Live(l.blocks) + {b}
    ensures forall x :: Payload(b) <= x < End(b) ==> Owned(Release(t, j).blocks, x)
    ensures forall x :: Owned(l.blocks[k := l.blocks[k].(free := true)], x) ==> Owned(Release(t, j).blocks, x)
  {
    ReleaseKeeps(t, j);
    FreedLive(l.blocks, k);
    hide WellFormed, Release;
    LiveOwned(l.blocks[k := l.blocks[k].(free := true)], Release(t, j).blocks);
    assert b in Live(Release(t, j).blocks);
    var i :| 0 <= i < |Release(t, j).blocks| && Release(t, j).blocks[i] == b;
    OwnPayload(Release(t, j).blocks, i);
  }

  /** The overflow test of calloc is exact. */
  lemma ProductOverflow(num: nat, size: nat)
    ensures (num != 0 && size > (WORD - 1) / num) <==> num * size >= WORD
  {
    if num != 0 {
      var q := (WORD - 1) / num;
      assert num * q <= WORD - 1 < num * (q + 1);
      if size > q {
        assert num * size >= num * (q + 1);
      } else {
        assert num * size <= num * q;
      }
    }
  }

  lemma PayloadStoreUnseen(l: Layout, mem: Memory, k: nat, a: nat, bytes: seq<Byte>)
    requires WellFormed(l) && k < |l.blocks| && Linked(mem, l.blocks)
    requires Payload(l.blocks[k]) <= a && a + |bytes| <= End(l.blocks[k])
    ensures Linked(Write(mem, a, bytes), l.blocks)
  {
    var after := Write(mem, a, bytes);
    var at := Addrs(l.blocks);
    hide NoFreeNeighbours, Aligned, Footprint, DecodeMeta;
    forall i | 0 <= i < |at|
      ensures Mapped(after, at[i], HDR) && MetaAt(after, at[i]) == MetaAt(mem, at[i])
    {
      assert Mapped(mem, at[i], HDR);
      PairInOrder(l.blocks, i, k);
      PairInOrder(l.blocks, k, i);
      assert Read(after, at[i], HDR) == Read(mem, at[i], HDR);
    }
    assert MetasAt(after, at) == MetasAt(mem, at);
  }

  /** Bytes owned before block `b` was handed out are not in `b`. */
  lemma OthersApart(t: Layout, l: Layout, b: Block, a: nat, n: nat)
    requires WellFormed(t) && b in Live(t.blocks) && b !in Live(l.blocks) && Live(l.blocks) <= Live(t.blocks)
    requires a == Payload(b) && n <= b.size
    ensures forall x: nat :: Owned(l.blocks, x) ==> !(a <= x < a + n)
  {
    forall x: nat | Owned(l.blocks, x)
      ensures !(a <= x < a + n)
    {
      var i :| 0 <= i < |l.blocks| && !l.blocks[i].free && Payload(l.blocks[i]) <= x < End(l.blocks[i]);
      assert l.blocks[i] in Live(t.blocks);
      LivePayloadsDisjoint(t, l.blocks[i], b);
    }
  }

  lemma BackHeader(fs: seq<Block>, k: nat)
    requires k < |fs| && fs[k].free
    ensures var (bs, i) := MergeBack(fs, k);
      i < |bs| && bs[i].free && Header(bs, i).next == Header(fs, k).next
  {
  }

  /** Merging changes no live block, so every byte owned at the end was owned throughout. */
  lemma ReleaseLive(l: Layout, k: nat)
    requires WellFormed(l) && k < |l.blocks| && !l.blocks[k].free
    ensures var fs := l.blocks[k := l.blocks[k].(free := true)];
      && (forall x :: Owned(Release(l, k).blocks, x) ==> Owned(fs, x) && Owned(MergeBack(fs, k).0, x))
      && Release(l, k).base == l.base && Release(l, k).brk == l.brk
  {
    var fs := l.blocks[k := l.blocks[k].(free := true)];
    FreedKeeps(l, k);
    hide WellFormed, InOrder, Aligned, Inside, Owned, Live;
    var (bs, i) := MergeBack(fs, k);
    if k > 0 && fs[k - 1].free {
      MergeAtKeeps(fs, k - 1, l.base, l.brk);
    }
    if i + 1 < |bs| && bs[i + 1].free {
      MergeAtKeeps(bs, i, l.base, l.brk);
    }
    LiveOwned(Release(l, k).blocks, fs);
    LiveOwned(Release(l, k).blocks, bs);
  }

  lemma MergeEnds(bs: seq<Block>, i: nat, low: nat, high: nat)
    requires InOrder(bs) && Inside(bs, low, high) && i + 1 < |bs|
    ensures var ms := MergeAt(bs, i);
      && ms[0].addr == bs[0].addr
      && ms[|ms| - 1].addr == (if bs[i + 1].addr == bs[|bs| - 1].addr then bs[i].addr else bs[|bs| - 1].addr)
      && low <= bs[i].addr && End(bs[i]) <= high
      && (i + 2 < |bs| ==> low <= bs[i + 2].addr && End(bs[i + 2]) <= high)
  {
    if i + 2 < |bs| {
      PairInOrder(bs, i + 1, |bs| - 1);
    }
  }

  /** What the stores of a merge leave in memory. */
  function MergeMemory(mem: Memory, bs: seq<Block>, i: nat): (r: Memory)
    requires i + 1 < |bs|
    ensures r.Keys == mem.Keys
  {
    var a := bs[i].addr;
    var next := Header(bs, i + 1).next;
    var m2 := StoreField(StoreField(mem, a, Size, bs[i].size + bs[i + 1].size + HDR), a, Next, next);
    if next != 0 then StoreField(m2, next, Prev, a) else m2
  }

  lemma LinkedMetas(mem: Memory, bs: seq<Block>)
    requires Linked(mem, bs)
    ensures AllMapped(mem, Addrs(bs)) && MetasAt(mem, Addrs(bs)) == Headers(bs)
  {
  }

  lemma MergeBounds(bs: seq<Block>, i: nat, low: nat, high: nat)
    requires InOrder(bs) && Inside(bs, low, high) && 0 < low <= high < WORD && i + 1 < |bs|
    ensures bs[i].size + bs[i + 1].size + HDR < WORD && bs[i].addr < WORD && Header(bs, i + 1).next < WORD
    ensures Header(bs, i + 1).next != 0 <==> i + 2 < |bs|
    ensures i + 2 < |bs| ==> Header(bs, i + 1).next == bs[i + 2].addr
  {
    PairInOrder(bs, i, i + 1);
  }

  /** The header of each block after a merge. */
  lemma MergeHeader(bs: seq<Block>, i: nat, j: nat)
    requires i + 1 < |bs| && j + 1 < |bs|
    ensures |MergeAt(bs, i)| == |bs| - 1
    ensures j < i ==> Header(MergeAt(bs, i), j) == Header(bs, j)
    ensures j == i ==>
      Header(MergeAt(bs, i), j)
        == Header(bs, i).(size := bs[i].size + bs[i + 1].size + HDR, next := Header(bs, i + 1).next)
    ensures j == i + 1 ==> Header(MergeAt(bs, i), j) == Header(bs, j + 1).(prev := bs[i].addr)
    ensures j > i + 1 ==> Header(MergeAt(bs, i), j) == Header(bs, j + 1)
  {
    var ms := MergeAt(bs, i);
    var merged := bs[i].(size := bs[i].size + bs[i + 1].size + HDR);
    assert forall x: nat :: x < |ms| ==> ms[x] == if x < i then bs[x] else if x == i then merged else bs[x + 1];
  }

  lemma MergeHeaders(bs: seq<Block>, i: nat)
    requires i + 1 < |bs|
    ensures Addrs(MergeAt(bs, i)) == Addrs(bs)[..i + 1] + Addrs(bs)[i + 2..]
    ensures var h := Headers(bs);
      var next := Header(bs, i + 1).next;
      var h1 := h[i := h[i].(size := bs[i].size + bs[i + 1].size + HDR, next := next)];
      var h2 := if i + 2 < |bs| then h1[i + 2 := h1[i + 2].(prev := bs[i].addr)] else h1;
      Headers(MergeAt(bs, i)) == h2[..i + 1] + h2[i + 2..]
  {
    var ms := MergeAt(bs, i);
    assert Addrs(ms) == Addrs(bs)[..i + 1] + Addrs(bs)[i + 2..];
    hide Addrs, MergeAt, Header;
    var h := Headers(bs);
    var next := Header(bs, i + 1).next;
    var h1 := h[i := h[i].(size := bs[i].size + bs[i + 1].size + HDR, next := next)];
    var h2 := if i + 2 < |bs| then h1[i + 2 := h1[i + 2].(prev := bs[i].addr)] else h1;
    var goal := h2[..i + 1] + h2[i + 2..];
    MergeHeader(bs, i, 0);
    forall j | 0 <= j < |ms|
      ensures Header(ms, j) == goal[j]
    {
      MergeHeader(bs, i, j);
      assert goal[j] == if j <= i then h2[j] else h2[j + 1];
    }
  }

  lemma ListWithout(mem: Memory, at: seq<nat>, i: nat)
    requires AllMapped(mem, at) && i < |at|
    ensures AllMapped(mem, at[..i] + at[i + 1..])
    ensures MetasAt(mem, at[..i] + at[i + 1..]) == MetasAt(mem, at)[..i] + MetasAt(mem, at)[i + 1..]
  {
    hide Mapped, MetaAt;
    var less := at[..i] + at[i + 1..];
    forall j | 0 <= j < |less|
      ensures less[j] == at[if j < i then j else j + 1] && Mapped(mem, less[j], HDR)
    {
    }
  }

  lemma LinkedFrom(mem: Memory, bs: seq<Block>, at: seq<nat>)
    requires at == Addrs(bs) && AllMapped(mem, at)
    ensures Linked(mem, bs) <==> MetasAt(mem, at) == Headers(bs)
  {
  }

  lemma OwnHeadersNotOwned(bs: seq<Block>)
    requires InOrder(bs)
    ensures forall x :: Owned(bs, x) ==> !InHeader(Addrs(bs), x)
  {
    forall i | 0 <= i < |bs|
      ensures HasHome(bs, Addrs(bs)[i])
    {
      assert HeaderWithin(bs[i], Addrs(bs)[i]);
    }
    HeadersNotOwned(bs, Addrs(bs));
  }

  lemma MergeStores(bs: seq<Block>, mem: Memory, i: nat, low: nat, high: nat)
    requires InOrder(bs) && Inside(bs, low, high) && 0 < low <= high < WORD && Linked(mem, bs)
    requires i + 1 < |bs| && bs[i].free && bs[i + 1].free
    ensures Linked(MergeMemory(mem, bs, i), MergeAt(bs, i))
    ensures forall x: nat :: x in mem && Owned(bs, x) ==> MergeMemory(mem, bs, i)[x] == mem[x]
  {
    hide InOrder, Inside, Linked, MetaAt, Owned, InHeader, Spread, MetasAt, StoreField, Power256, AllMapped, Header,
      MergeAt, Headers;
    var at := Addrs(bs);
    var a := bs[i].addr;
    var next := Header(bs, i + 1).next;
    var sum := bs[i].size + bs[i + 1].size + HDR;
    OrderSpreads(bs);
    OwnHeadersNotOwned(bs);
    MergeBounds(bs, i, low, high);
    WordIsEightBytes();
    LinkedMetas(mem, bs);
    var m1 := StoreField(mem, a, Size, sum);
    StoreFieldInList(mem, at, i, Size, sum);
    var m2 := StoreField(m1, a, Next, next);
    StoreFieldInList(m1, at, i, Next, next);
    if next != 0 {
      StoreFieldInList(m2, at, i + 2, Prev, a);
    }
    var after := MergeMemory(mem, bs, i);
    MergeHeaders(bs, i);
    ListWithout(after, at, i + 1);
    LinkedFrom(after, MergeAt(bs, i), at[..i + 1] + at[i + 2..]);
  }

  lemma FreedHeaders(bs: seq<Block>, k: nat)
    requires k < |bs|
    ensures Headers(bs[k := bs[k].(free := true)]) == Headers(bs)[k := Headers(bs)[k].(free := true)]
  {
  }

  lemma BlockBounds(l: Layout, k: nat)
    requires WellFormed(l) && k < |l.blocks|
    ensures 0 < l.base <= l.blocks[k].addr && End(l.blocks[k]) <= l.brk
    ensures k + 1 < |l.blocks| ==> l.base <= l.blocks[k + 1].addr && End(l.blocks[k + 1]) <= l.brk
  {
  }

  lemma SizeFits(l: Layout, k: nat)
    requires WellFormed(l) && k < |l.blocks| && l.brk < WORD
    ensures l.blocks[k].size < WORD && l.blocks[k].addr < WORD && End(l.blocks[k]) < WORD && 0 < l.blocks[k].addr
    ensures k + 1 < |l.blocks| ==> 0 < l.blocks[k + 1].addr < WORD && l.blocks[|l.blocks| - 1].addr != l.blocks[k].addr
    ensures 0 < l.base == l.blocks[0].addr && InOrder(l.blocks)
  {
    if k + 1 < |l.blocks| {
      PairInOrder(l.blocks, k, |l.blocks| - 1);
    }
  }

  lemma FreedStores(l: Layout, mem: Memory, k: nat)
    requires WellFormed(l) && l.brk < WORD && k < |l.blocks| && !l.blocks[k].free && Linked(mem, l.blocks)
    ensures var fs := l.blocks[k := l.blocks[k].(free := true)];
      var after := StoreField(mem, l.blocks[k].addr, Field.Free, 1);
      && InOrder(fs) && Aligned(fs) && Inside(fs, l.base, l.brk) && Linked(after, fs)
      && fs[0].addr == l.base == l.blocks[0].addr && fs[|fs| - 1].addr == l.blocks[|fs| - 1].addr
      && (forall x: nat :: x in mem && Owned(fs, x) ==> after[x] == mem[x])
    ensures 0 < l.base <= l.brk
  {
    hide WellFormed, InOrder, Aligned, Inside, Linked, MetaAt, Owned, InHeader, Spread, MetasAt, StoreField, Power256,
      AllMapped, Live, Header, FreePairsOnlyAt, Footprint;
    var fs := l.blocks[k := l.blocks[k].(free := true)];
    var at := Addrs(l.blocks);
    FreedKeeps(l, k);
    SizeFits(l, k);
    BlockBounds(l, k);
    OrderSpreads(l.blocks);
    OwnHeadersNotOwned(fs);
    WordIsEightBytes();
    LinkedMetas(mem, l.blocks);
    StoreFieldInList(mem, at, k, Field.Free, 1);
    assert Addrs(fs) == at;
    FreedHeaders(l.blocks, k);
    LinkedFrom(StoreField(mem, l.blocks[k].addr, Field.Free, 1), fs, at);
  }

  lemma LinkedExtends(mem: Memory, more: Memory, bs: seq<Block>)
    requires Linked(mem, bs) && forall x :: x in mem ==> x in more && more[x] == mem[x]
    ensures Linked(more, bs)
  {
    var at := Addrs(bs);
    forall i | 0 <= i < |at|
      ensures Mapped(more, at[i], HDR) && MetaAt(more, at[i]) == MetaAt(mem, at[i])
    {
      assert Mapped(mem, at[i], HDR);
      assert Read(more, at[i], HDR) == Read(mem, at[i], HDR);
    }
    assert MetasAt(more, at) == MetasAt(mem, at);
  }

  lemma GrowEnds(l: Layout, n: nat)
    requires l.blocks != []
    ensures Grow(l, n).blocks[0] == l.blocks[0]
    ensures Grow(l, n).blocks[|Grow(l, n).blocks| - 1].addr == l.brk
  {
  }

  lemma GrowAddrs(l: Layout, mem: Memory, n: nat)
    requires WellFormed(l) && l.blocks != [] && WellFormed(Grow(l, n)) && Backed(mem, l.base, l.brk + n + HDR)
    ensures AllMapped(mem, Addrs(Grow(l, n).blocks))
    ensures forall x :: Owned(l.blocks, x) ==> !InHeader(Addrs(Grow(l, n).blocks), x)
  {
    hide MetaAt, NoFreeNeighbours, Footprint, OnGrid, Aligned, InHeader;
    var t := Grow(l, n);
    OwnHeadersNotOwned(t.blocks);
    forall x | Owned(l.blocks, x) ensures Owned(t.blocks, x) {
      var i :| 0 <= i < |l.blocks| && !l.blocks[i].free && Payload(l.blocks[i]) <= x < End(l.blocks[i]);
      assert t.blocks[i] == l.blocks[i];
    }
  }

  lemma GrowReady(l: Layout, mem: Memory, n: nat)
    requires WellFormed(l) && l.blocks != [] && Linked(mem, l.blocks) && WellFormed(Grow(l, n))
    requires Backed(mem, l.base, l.brk + n + HDR)
    ensures var at := Addrs(Grow(l, n).blocks);
      var k := |l.blocks| - 1;
      && AllMapped(mem, at)
      && (forall x :: Owned(l.blocks, x) ==> !InHeader(at, x))
      && Headers(Grow(l, n).blocks) ==
        MetasAt(mem, at)[k + 1 := Meta(n, 0, l.blocks[k].addr, false)][k := MetasAt(mem, at)[k].(next := l.brk)]
  {
    hide WellFormed, MetaAt, InHeader, Owned, InOrder, Inside, Mapped, Linked, Backed, AllMapped;
    GrowAddrs(l, mem, n);
    var at := Addrs(Grow(l, n).blocks);
    forall i | 0 <= i < |l.blocks|
      ensures MetasAt(mem, at)[i] == Header(l.blocks, i)
    {
      LinkedAt(mem, l.blocks, i);
    }
  }

  lemma GrowStores(l: Layout, mem: Memory, n: nat)
    requires WellFormed(l) && l.blocks != [] && WellFormed(Grow(l, n)) && Linked(mem, l.blocks)
    requires Backed(mem, l.base, l.brk + n + HDR) && l.brk + n + HDR < WORD
    ensures var t := Grow(l, n);
      var last := l.blocks[|l.blocks| - 1].addr;
      var after := StoreField(StoreHeader(mem, l.brk, Meta(n, 0, last, false)), last, Next, l.brk);
      && Linked(after, t.blocks)
      && (forall x: nat :: x in mem && Owned(l.blocks, x) ==> after[x] == mem[x])
  {
    hide WellFormed, MetaAt, Owned, InHeader, Spread, Linked, MetasAt, StoreField, StoreHeader, Power256, Mapped,
      AllMapped;
    var t := Grow(l, n);
    var k := |l.blocks| - 1;
    var last := l.blocks[k].addr;
    var at := Addrs(t.blocks);
    SizeFits(l, k);
    SizeFits(t, k);
    OrderSpreads(t.blocks);
    GrowReady(l, mem, n);
    WordIsEightBytes();
    var m1 := StoreHeader(mem, l.brk, Meta(n, 0, last, false));
    StoreHeaderInList(mem, at, k + 1, Meta(n, 0, last, false));
    StoreFieldInList(m1, at, k, Next, l.brk);
    LinkedFrom(StoreField(m1, last, Next, l.brk), t.blocks, at);
  }

  lemma AddrsAt(bs: seq<Block>, k: nat)
    requires k < |bs|
    ensures |Addrs(bs)| == |bs| && Addrs(bs)[k] == bs[k].addr
  {
  }

  lemma UseHeaders(bs: seq<Block>, k: nat, n: nat)
    requires k < |bs|
    ensures Headers(bs[k := Block(bs[k].addr, n, false)]) == Headers(bs)[k := Headers(bs)[k].(size := n, free := false)]
  {
  }

  lemma WholeReady(l: Layout, mem: Memory, k: nat, n: nat)
    requires WellFormed(l) && l.brk < WORD && k < |l.blocks| && Fits(l.blocks[k], n) && !Splits(l.blocks[k], n)
    requires Linked(mem, l.blocks)
    ensures var t := Take(l, k, n); var at := Addrs(l.blocks);
      && |t.blocks| == |l.blocks| && at == Addrs(t.blocks) && t.base == l.base && t.brk == l.brk
      && AllMapped(mem, at) && MetasAt(mem, at) == Headers(l.blocks) && Spread(at)
      && Headers(t.blocks) == Headers(l.blocks)[k := Headers(l.blocks)[k].(size := n, free := false)]
      && t.blocks[|t.blocks| - 1].addr == l.blocks[|l.blocks| - 1].addr
      && (forall x :: Owned(l.blocks, x) ==> !InHeader(at, x))
    ensures n < WORD
  {
    OrderSpreads(l.blocks);
    OwnHeadersNotOwned(l.blocks);
    SizeFits(l, k);
    UseHeaders(l.blocks, k, n);
    hide WellFormed, Headers, MetasAt, AllMapped, Spread, Owned, InHeader;
    assert Addrs(Take(l, k, n).blocks) == Addrs(l.blocks);
  }

  lemma WholeStores(l: Layout, mem: Memory, k: nat, n: nat)
    requires WellFormed(l) && l.brk < WORD && k < |l.blocks| && Fits(l.blocks[k], n) && !Splits(l.blocks[k], n)
    requires Linked(mem, l.blocks)
    ensures var t := Take(l, k, n);
      var after := StoreField(StoreField(mem, l.blocks[k].addr, Size, n), l.blocks[k].addr, Field.Free, 0);
      && |t.blocks| == |l.blocks| && t.base == l.base && t.brk == l.brk
      && t.blocks[|t.blocks| - 1].addr == l.blocks[|l.blocks| - 1].addr
      && Linked(after, t.blocks)
      && (forall x: nat :: x in mem && Owned(l.blocks, x) ==> after[x] == mem[x])
  {
    hide WellFormed, MetaAt, Owned, InHeader, Spread, Linked, Mapped, MetasAt, AllMapped, Headers, StoreField,
      Power256, InOrder, Take, Addrs;
    WholeReady(l, mem, k, n);
    WordIsEightBytes();
    LinkedAt(mem, l.blocks, k);
    var at := Addrs(l.blocks);
    AddrsAt(l.blocks, k);
    var m1 := StoreField(mem, at[k], Size, n);
    StoreFieldInList(mem, at, k, Size, n);
    StoreFieldInList(m1, at, k, Field.Free, 0);
    LinkedFrom(StoreField(m1, at[k], Field.Free, 0), Take(l, k, n).blocks, at);
  }

  /** What the stores of a split leave in memory. */
  function SplitMemory(mem: Memory, bs: seq<Block>, k: nat, n: nat, relink: bool): (r: Memory)
    requires k < |bs| && bs[k].size >= n + HDR
    ensures r.Keys == mem.Keys
  {
    var best := bs[k].addr;
    var rest := best + HDR + n;
    var next := Header(bs, k).next;
    var m1 := StoreHeader(mem, rest, Meta(bs[k].size - n - HDR, next, best, true));
    var m2 := if relink && next != 0 then StoreField(m1, next, Prev, rest) else m1;
    StoreField(StoreField(StoreField(m2, best, Next, rest), best, Size, n), best, Field.Free, 0)
  }

  /** From the headers `start` found in memory, the stores of a split with relinking produce exactly
      `goal`, and without it they do not when there is a successor. */
  ghost predicate SplitLinks(start: seq<Meta>, bs: seq<Block>, k: nat, n: nat, goal: seq<Meta>)
    requires k < |bs| && bs[k].size >= n + HDR
  {
    && |start| == |goal| == |bs| + 1
    && var h := Header(bs, k);
    var rest := bs[k].addr + HDR + n;
    var left := start[k + 1 := Meta(bs[k].size - n - HDR, h.next, bs[k].addr, true)];
    var used := start[k].(size := n, next := rest, free := false);
    if k + 1 < |bs| then
      && goal == left[k + 2 := left[k + 2].(prev := rest)][k := used]
      && goal != left[k := used]
    else goal == left[k := used]
  }

  lemma Home(bs: seq<Block>, k: nat, a: nat)
    requires k < |bs| && HeaderWithin(bs[k], a)
    ensures HasHome(bs, a)
  {
  }

  /** The headers of the split heap: the old ones, with a new one behind header `k`. */
  lemma SplitAddrs(l: Layout, mem: Memory, k: nat, n: nat)
    requires WellFormed(l) && k < |l.blocks| && Fits(l.blocks[k], n) && Splits(l.blocks[k], n)
    requires Backed(mem, l.base, l.brk)
    ensures var at := Addrs(Take(l, k, n).blocks);
      && at == Addrs(l.blocks)[..k + 1] + [l.blocks[k].addr + HDR + n] + Addrs(l.blocks)[k + 1..]
      && AllMapped(mem, at)
      && (forall x :: Owned(l.blocks, x) ==> !InHeader(at, x))
  {
    hide MetaAt, NoFreeNeighbours, Footprint, OnGrid, Aligned, InHeader, Owned, HasHome, InOrder;
    var bs := l.blocks;
    var rest := bs[k].addr + HDR + n;
    var at := Addrs(Take(l, k, n).blocks);
    assert at == Addrs(bs)[..k + 1] + [rest] + Addrs(bs)[k + 1..];
    hide Take, Addrs;
    forall i | 0 <= i < |at|
      ensures Mapped(mem, at[i], HDR) && HasHome(bs, at[i])
    {
      var j := if i <= k then i else i - 1;
      AddrsAt(bs, j);
      Home(bs, j, at[i]);
    }
    HeadersNotOwned(bs, at);
  }

  lemma SplitMetas(l: Layout, mem: Memory, k: nat, n: nat)
    requires k < |l.blocks| && Fits(l.blocks[k], n) && Splits(l.blocks[k], n) && Linked(mem, l.blocks)
    requires Addrs(Take(l, k, n).blocks) ==
      Addrs(l.blocks)[..k + 1] + [l.blocks[k].addr + HDR + n] + Addrs(l.blocks)[k + 1..]
    requires AllMapped(mem, Addrs(Take(l, k, n).blocks))
    ensures var at := Addrs(Take(l, k, n).blocks);
      && (forall i :: 0 <= i <= k ==> MetasAt(mem, at)[i] == Header(l.blocks, i))
      && (forall i :: k + 1 < i <= |l.blocks| ==> MetasAt(mem, at)[i] == Header(l.blocks, i - 1))
  {
    var at := Addrs(Take(l, k, n).blocks);
    hide MetaAt, Mapped, Take, Header;
    forall i | 0 <= i <= k
      ensures MetasAt(mem, at)[i] == Header(l.blocks, i)
    {
      LinkedAt(mem, l.blocks, i);
    }
    forall i | k + 1 < i <= |l.blocks|
      ensures MetasAt(mem, at)[i] == Header(l.blocks, i - 1)
    {
      LinkedAt(mem, l.blocks, i - 1);
    }
  }

  lemma SplitHeaders(bs: seq<Block>, k: nat, n: nat, start: seq<Meta>)
    requires k < |bs| && Fits(bs[k], n) && Splits(bs[k], n) && |start| == |bs| + 1
    requires forall i :: 0 <= i <= k ==> start[i] == Header(bs, i)
    requires forall i :: k + 1 < i <= |bs| ==> start[i] == Header(bs, i - 1)
    ensures SplitLinks(start, bs, k, n, Headers(
      bs[..k] + [Block(bs[k].addr, n, false), Block(bs[k].addr + HDR + n, bs[k].size - n - HDR, true)] + bs[k + 1..]))
  {
    var rest := bs[k].addr + HDR + n;
    var ts := bs[..k] + [Block(bs[k].addr, n, false), Block(rest, bs[k].size - n - HDR, true)] + bs[k + 1..];
    var left := start[k + 1 := Meta(bs[k].size - n - HDR, Header(bs, k).next, bs[k].addr, true)];
    var used := start[k].(size := n, next := rest, free := false);
    assert forall i :: 0 <= i < k ==> ts[i] == bs[i];
    assert forall i :: k + 2 <= i < |ts| ==> ts[i] == bs[i - 1];
    if k + 1 < |bs| {
      assert Headers(ts) == left[k + 2 := left[k + 2].(prev := rest)][k := used];
      assert Headers(ts)[k + 2].prev == rest && left[k := used][k + 2].prev == bs[k].addr;
    } else {
      assert Headers(ts) == left[k := used];
    }
  }

  /** Before a split: the headers of the heap to come are mapped and apart, and hold the old list with
      an unwritten header behind header `k`. */
  lemma SplitReady(l: Layout, mem: Memory, k: nat, n: nat)
    requires WellFormed(l) && l.brk < WORD && k < |l.blocks| && Fits(l.blocks[k], n) && Splits(l.blocks[k], n)
    requires Linked(mem, l.blocks) && Backed(mem, l.base, l.brk)
    requires WellFormed(Take(l, k, n))
    ensures var bs := l.blocks;
      var t := Take(l, k, n);
      var at := Addrs(t.blocks);
      var rest := bs[k].addr + HDR + n;
      && t.base == l.base && t.brk == l.brk && |t.blocks| == |bs| + 1 && rest < WORD
      && at[k] == bs[k].addr && at[k + 1] == rest && (k + 1 < |bs| ==> at[k + 2] == bs[k + 1].addr)
      && t.blocks[|t.blocks| - 1].addr == (if k + 1 == |bs| then rest else bs[|bs| - 1].addr)
      && AllMapped(mem, at) && Spread(at)
      && (forall x :: Owned(bs, x) ==> !InHeader(at, x))
      && SplitLinks(MetasAt(mem, at), bs, k, n, Headers(t.blocks))
    ensures l.blocks[k].size < WORD && l.blocks[k].addr < WORD && 0 < l.base == l.blocks[0].addr
    ensures k + 1 < |l.blocks| ==> 0 < l.blocks[k + 1].addr < WORD
    ensures k + 1 < |l.blocks| ==> l.blocks[|l.blocks| - 1].addr != l.blocks[k].addr
  {
    hide WellFormed, InOrder, MetasAt, AllMapped, Spread, Owned, InHeader, Header, Headers, SplitLinks, Linked;
    SizeFits(l, k);
    SizeFits(Take(l, k, n), k);
    OrderSpreads(Take(l, k, n).blocks);
    SplitAddrs(l, mem, k, n);
    SplitMetas(l, mem, k, n);
    SplitHeaders(l.blocks, k, n, MetasAt(mem, Addrs(Take(l, k, n).blocks)));
  }

  lemma SplitStores(l: Layout, mem: Memory, k: nat, n: nat, relink: bool)
    requires WellFormed(l) && l.brk < WORD && k < |l.blocks| && Fits(l.blocks[k], n) && Splits(l.blocks[k], n)
    requires Linked(mem, l.blocks) && Backed(mem, l.base, l.brk)
    requires WellFormed(Take(l, k, n))
    ensures var bs := l.blocks;
      var t := Take(l, k, n);
      var rest := bs[k].addr + HDR + n;
      var after := SplitMemory(mem, bs, k, n, relink);
      && t.base == l.base && t.brk == l.brk && t.blocks != []
      && t.blocks[|t.blocks| - 1].addr == (if k + 1 == |bs| then rest else bs[|bs| - 1].addr)
      && (Linked(after, t.blocks) <==> relink || k + 1 == |bs|)
      && (forall x: nat :: x in mem && Owned(bs, x) ==> after[x] == mem[x])
    ensures k + 1 < |l.blocks| ==> 0 < l.blocks[k + 1].addr
    ensures k + 1 < |l.blocks| ==> l.blocks[|l.blocks| - 1].addr != l.blocks[k].addr
  {
    hide WellFormed, MetaAt, Owned, InHeader, Spread, Linked, MetasAt, StoreField, StoreHeader, Take, Power256, Mapped;
    var bs := l.blocks;
    var t := Take(l, k, n);
    var at := Addrs(t.blocks);
    var rest := bs[k].addr + HDR + n;
    SplitReady(l, mem, k, n);
    hide AllMapped, Addrs, Headers;
    WordIsEightBytes();
    var next := Header(bs, k).next;
    var m1 := StoreHeader(mem, rest, Meta(bs[k].size - n - HDR, next, bs[k].addr, true));
    StoreHeaderInList(mem, at, k + 1, Meta(bs[k].size - n - HDR, next, bs[k].addr, true));
    var m2 := if relink && next != 0 then StoreField(m1, next, Prev, rest) else m1;
    if relink && next != 0 {
      StoreFieldInList(m1, at, k + 2, Prev, rest);
    }
    var m3 := StoreField(m2, bs[k].addr, Next, rest);
    StoreFieldInList(m2, at, k, Next, rest);
    var m4 := StoreField(m3, bs[k].addr, Size, n);
    StoreFieldInList(m3, at, k, Size, n);
    StoreFieldInList(m4, at, k, Field.Free, 0);
    LinkedFrom(StoreField(m4, bs[k].addr, Field.Free, 0), t.blocks, at);
  }

  lemma PayloadInside(l: Layout, b: Block)
    requires WellFormed(l) && b in Live(l.blocks)
    ensures Payload(b) + b.size <= l.brk
  {
    LivePayloadsDisjoint(l, b, b);
  }

  lemma MallocHandsOut(l: Layout, n: nat, grant: bool)
    requires WellFormed(l) && n < WORD
    ensures var (t, b) := MallocLayout(l, n, grant);
      forall r :: Leads(r, b) ==> HandedOut(Live(l.blocks), Live(t.blocks), n, r)
  {
    PayloadExact(l, n, grant);
    BootKeeps(l);
    hide WellFormed, Live, Boot, RoundUp;
  }

  class Heap {
    var mem: Memory
    var head: nat
    var tail: nat
    var brk: nat
    const base: nat
    /** Where the kernel stops extending the heap. */
    const limit: nat
    ghost var layout: Layout

    ghost predicate Valid()
      reads this
    {
      && WellFormed(layout) && layout.base == base && layout.brk == brk
      && base <= brk <= limit < WORD / 2
      && Backed(mem, base, brk)
      && Linked(mem, layout.blocks)
      && if layout.blocks == [] then head == 0 && tail == 0
         else head == base && tail == layout.blocks[|layout.blocks| - 1].addr
    }

    constructor (base: nat, limit: nat)
      requires OnGrid(base) && 0 < base <= limit < WORD / 2
      ensures Valid() && layout == Layout(base, [], base, 0)
    {
      this.base, this.limit := base, limit;
      mem, head, tail, brk := map[], 0, 0, base;
      layout := Layout(base, [], base, 0);
    }

    /** Moves the break if the kernel grants it and it stays between the base and the limit; fresh
        bytes are zero. */
    method Sbrk(increment: int, grant: bool) returns (ok: bool)
      requires Backed(mem, base, brk) && base <= brk <= limit
      modifies `mem, `brk
      ensures ok <==> grant && base <= old(brk) + increment <= limit
      ensures brk == if ok then old(brk) + increment else old(brk)
      ensures Backed(mem, base, brk)
      ensures forall x :: x in old(mem) && (x < brk || old(brk) <= brk) ==> x in mem && mem[x] == old(mem)[x]
    {
      ok := grant && base <= brk + increment <= limit;
      if ok {
        mem := map x | base <= x < brk + increment :: if x in mem then mem[x] else 0;
        brk := brk + increment;
      }
    }

    method Put(a: nat, f: Field, v: nat)
      requires Backed(mem, base, brk) && base <= a && a + HDR <= brk
      modifies `mem
      ensures Backed(mem, base, brk) && mem == StoreField(old(mem), a, f, v)
    {
      mem := StoreField(mem, a, f, v);
    }

    method PutHeader(a: nat, m: Meta)
      requires Backed(mem, base, brk) && base <= a && a + HDR <= brk
      modifies `mem
      ensures Backed(mem, base, brk) && mem == StoreHeader(old(mem), a, m)
    {
      hide StoreField, Backed;
      Put(a, Size, m.size);
      Put(a, Next, m.next);
      Put(a, Prev, m.prev);
      Put(a, Field.Free, if m.free then 1 else 0);
    }

    /** The first call maps the initial heap; the process exits if the kernel refuses. */
    method InitHead(grant: bool) returns (ok: bool)
      requires Valid() && layout.blocks == []
      modifies this
      ensures ok <==> grant && base + INITIAL <= limit
      ensures ok ==> Valid() && layout == Boot(old(layout))
    {
      head := brk;
      ok := Sbrk(INITIAL, grant);
      if !ok {
        return;
      }
      BootKeeps(layout);
      layout := Boot(layout);
      ghost var at := Addrs(layout.blocks);
      assert at == [head];
      StoreHeaderInList(mem, at, 0, Meta(INITIAL - HDR, 0, 0, true));
      PutHeader(head, Meta(INITIAL - HDR, 0, 0, true));
      tail := head;
      assert MetasAt(mem, at) == Headers(layout.blocks);
    }

    method FindFirstFit(size: nat) returns (cur: nat)
      requires Valid()
      ensures match FirstFit(layout.blocks, size)
        case Some(k) => cur == layout.blocks[k].addr
        case None => cur == 0
    {
      hide MetaAt, InOrder, Aligned, NoFreeNeighbours, Footprint, OnGrid, Mapped, Linked;
      cur := head;
      ghost var i := 0;
      while cur != 0
        invariant 0 <= i <= |layout.blocks|
        invariant cur == if i < |layout.blocks| then layout.blocks[i].addr else 0
        invariant forall j :: 0 <= j < i ==> !Fits(layout.blocks[j], size)
        decreases |layout.blocks| - i
      {
        LinkedAt(mem, layout.blocks, i);
        if MetaAt(mem, cur).free && MetaAt(mem, cur).size >= size {
          return;
        }
        cur := MetaAt(mem, cur).next;
        i := i + 1;
      }
    }

    /** The free block at `best` is used whole; what lies beyond `size` bytes is lost. */
    method UseWhole(best: nat, ghost k: nat, size: nat)
      requires Valid() && k < |layout.blocks| && layout.blocks[k].addr == best
      requires Fits(layout.blocks[k], size) && OnGrid(size) && !Splits(layout.blocks[k], size)
      modifies `mem, `layout
      ensures Valid() && layout == Take(old(layout), k, size)
      ensures forall x: nat :: x in old(mem) && Owned(old(layout).blocks, x) ==> x in mem && mem[x] == old(mem)[x]
    {
      hide WellFormed, Owned, Linked, Mapped, StoreField, OnGrid, Live, InOrder, Backed;
      BlockBounds(layout, k);
      TakeKeeps(layout, k, size);
      WholeStores(layout, mem, k, size);
      layout := Take(layout, k, size);
      Put(best, Size, size);
      Put(best, Field.Free, 0);
    }

    /** The free block at `best` gives up its first `size` bytes; the remainder becomes a new free
        block behind them.  `relink` says whether the old successor is pointed back at that block, as
        every other relinking step does; the source leaves that out. */
    method Split(best: nat, ghost k: nat, size: nat, relink: bool)
      requires Valid() && k < |layout.blocks| && layout.blocks[k].addr == best
      requires Fits(layout.blocks[k], size) && OnGrid(size) && Splits(layout.blocks[k], size)
      modifies `mem, `tail, `layout
      ensures layout == Take(old(layout), k, size)
      ensures Valid() <==> relink || k + 1 == |old(layout).blocks|
      ensures forall x: nat :: x in old(mem) && Owned(old(layout).blocks, x) ==> x in mem && mem[x] == old(mem)[x]
    {
      hide WellFormed, Owned, Linked, Mapped, StoreField, OnGrid, StoreHeader, MetaAt, Live, InOrder, Backed, Take,
        Contains, Addrs, MetasAt;
      LinkedAt(mem, layout.blocks, k);
      BlockBounds(layout, k);
      TakeKeeps(layout, k, size);
      SplitStores(layout, mem, k, size, relink);
      layout := Take(layout, k, size);
      var m := MetaAt(mem, best);
      var rest := best + HDR + size;
      PutHeader(rest, Meta(m.size - size - HDR, m.next, best, true));
      if relink && m.next != 0 {
        Put(m.next, Prev, rest);
      }
      Put(best, Next, rest);
      if best == tail {
        tail := rest;
      }
      Put(best, Size, size);
      Put(best, Field.Free, 0);
    }

    /** A new block at the break, linked behind the last one; `astray` says that the break did not move
        far enough for its header. */
    method Extend(size: nat, grant: bool) returns (cur: nat, ok: bool, astray: bool)
      requires Valid() && layout.blocks != [] && OnGrid(size) && size < WORD
      modifies this
      ensures cur == old(brk)
      ensures astray <==> grant && !Growable(old(layout), size) && BreakFor(old(layout), size).value <= limit
      ensures !astray ==> (ok <==> grant && old(brk) + size + HDR <= limit)
      ensures !astray ==> Valid() && layout == if ok then Grow(old(layout), size) else old(layout)
      ensures !astray ==>
        forall x: nat :: x in old(mem) && Owned(old(layout).blocks, x) ==> x in mem && mem[x] == old(mem)[x]
    {
      hide WellFormed, Owned, Linked, Mapped, StoreField, StoreHeader, OnGrid, Live, InOrder, Backed;
      ghost var was := mem;
      BlockBounds(layout, |layout.blocks| - 1);
      GrowKeeps(layout, size);
      GrowthExact(layout, size);
      cur := brk;
      ok := Sbrk(Increment(size), grant);
      astray := ok && brk < cur + HDR;
      if astray {
        return;
      }
      LinkedExtends(was, mem, layout.blocks);
      if !ok {
        return;
      }
      GrowStores(layout, mem, size);
      GrowEnds(layout, size);
      layout := Grow(layout, size);
      PutHeader(cur, Meta(size, 0, tail, false));
      Put(tail, Next, cur);
      tail := cur;
    }

    /** The last block if it fits, else the first fit; 0 if nothing fits. */
    method Choose(n: nat) returns (best: nat)
      requires Valid() && layout.blocks != []
      ensures match Pick(layout.blocks, n)
        case Some(k) => best == layout.blocks[k].addr && best != 0
        case None => best == 0
    {
      hide WellFormed, Linked, MetaAt, Backed;
      LinkedAt(mem, layout.blocks, |layout.blocks| - 1);
      BlockBounds(layout, |layout.blocks| - 1);
      if MetaAt(mem, tail).free && MetaAt(mem, tail).size >= n {
        best := tail;
      } else {
        best := FindFirstFit(n);
        if FirstFit(layout.blocks, n).Some? {
          BlockBounds(layout, FirstFit(layout.blocks, n).value);
        }
      }
    }

    /** malloc on an initialized heap, for a rounded size. */
    method AllocateRounded(n: nat, grant: bool, relink: bool) returns (r: Answer)
      requires Valid() && layout.blocks != [] && OnGrid(n) && n < WORD
      modifies this
      ensures r.Fault? <==> Strays(old(layout), n, grant, limit)
      ensures !r.Fault? ==>
        var (t, b) := Allocate(old(layout), n, grant && old(brk) + n + HDR <= limit);
        && layout == t
        && r == (if b.Some? then Pointer(Payload(b.value)) else Null)
        && (Valid() <==> relink || !SplitsInterior(old(layout).blocks, n))
      ensures !r.Fault? ==>
        forall x: nat :: x in old(mem) && Owned(old(layout).blocks, x) ==> x in mem && mem[x] == old(mem)[x]
    {
      hide WellFormed, Owned, Linked, OnGrid, Backed, Take, Grow, MetaAt;
      var best := Choose(n);
      if best != 0 {
        ghost var k := Pick(layout.blocks, n).value;
        LinkedAt(mem, layout.blocks, k);
        BlockBounds(layout, k);
        var room := MetaAt(mem, best).size;
        if room != n && room >= n + HDR + ALIGN {
          Split(best, k, n, relink);
        } else {
          UseWhole(best, k, n);
        }
        return Pointer(best + HDR);
      }
      var cur, ok, astray := Extend(n, grant);
      return if astray then Fault else if ok then Pointer(cur + HDR) else Null;
    }

    /** malloc.  The process exits when even the initial heap is refused. */
    method Malloc(size: nat, first: bool, grant: bool, relink: bool) returns (r: Answer)
      requires Valid() && size < WORD
      modifies this
      ensures r.ExitProcess? <==> old(layout).blocks == [] && !(first && base + INITIAL <= limit)
      ensures r.Fault? <==> !r.ExitProcess? && Strays(Boot(old(layout)), RoundUp(size), grant, limit)
      ensures Returned(r) ==>
        var l := Boot(old(layout));
        var (t, b) := MallocLayout(old(layout), size, grant && l.brk + RoundUp(size) + HDR <= limit);
        && layout == t
        && r == (if b.Some? then Pointer(Payload(b.value)) else Null)
        && (Valid() <==> relink || !SplitsInterior(l.blocks, RoundUp(size)))
      ensures Returned(r) ==> HandedOut(Live(old(layout).blocks), Live(layout.blocks), size, r)
      ensures Returned(r) ==>
        (r == Null <==>
          && (forall b :: b in Boot(old(layout)).blocks && b.free ==> b.size < RoundUp(size))
          && !(grant && Boot(old(layout)).brk + RoundUp(size) + HDR <= limit))
      ensures Returned(r) ==>
        forall x: nat :: x in old(mem) && Owned(old(layout).blocks, x) ==> x in mem && mem[x] == old(mem)[x]
    {
      hide Linked, OnGrid, InOrder, Aligned, NoFreeNeighbours, Inside, Footprint, Backed, RoundUp, Allocate, Live,
        HandedOut;
      ghost var more := grant && Boot(layout).brk + RoundUp(size) + HDR <= limit;
      MallocFails(layout, size, more);
      MallocHandsOut(layout, size, more);
      if head == 0 {
        var ok := InitHead(first);
        if !ok {
          return ExitProcess;
        }
      }
      RoundUpOnGrid(size);
      r := AllocateRounded(RoundUp(size), grant, relink);
    }

    /** The list of `bs` is in memory, whether or not free neighbours are merged yet. */
    ghost predicate Listed(bs: seq<Block>)
      reads `mem, `head, `tail, `brk
    {
      && bs != [] && InOrder(bs) && Aligned(bs) && Inside(bs, base, brk)
      && 0 < base <= brk <= limit < WORD / 2
      && Backed(mem, base, brk) && Linked(mem, bs)
      && bs[0].addr == base == head && tail == bs[|bs| - 1].addr
    }

    /** The free block at `a` takes over its free successor at `b`. */
    method Absorb(a: nat, b: nat, ghost bs: seq<Block>, ghost i: nat)
      requires Listed(bs) && i + 1 < |bs| && bs[i].addr == a && bs[i + 1].addr == b
      requires bs[i].free && bs[i + 1].free
      modifies `mem, `tail
      ensures Listed(MergeAt(bs, i)) && mem.Keys == old(mem).Keys
      ensures forall x: nat :: x in mem && Owned(bs, x) ==> mem[x] == old(mem)[x]
    {
      hide InOrder, Aligned, Inside, Backed, Linked, MetaAt, StoreField, Owned;
      LinkedAt(mem, bs, i);
      LinkedAt(mem, bs, i + 1);
      MergeAtKeeps(bs, i, base, brk);
      MergeEnds(bs, i, base, brk);
      MergeStores(bs, mem, i, base, brk);
      var size := MetaAt(mem, a).size + MetaAt(mem, b).size + HDR;
      var next := MetaAt(mem, b).next;
      Put(a, Size, size);
      Put(a, Next, next);
      if next != 0 {
        Put(next, Prev, a);
      }
      if b == tail {
        tail := a;
      }
    }

    /** Marks live block `k` free, leaving it where it is in the list. */
    method MarkFree(cur: nat, ghost k: nat)
      requires Valid() && k < |layout.blocks| && !layout.blocks[k].free && layout.blocks[k].addr == cur
      modifies `mem
      ensures var fs := layout.blocks[k := layout.blocks[k].(free := true)];
        && Listed(fs) && mem.Keys == old(mem).Keys
        && forall x: nat :: x in mem && Owned(fs, x) ==> mem[x] == old(mem)[x]
    {
      hide WellFormed, InOrder, Aligned, Inside, Backed, Linked, StoreField, Owned, Live;
      BlockBounds(layout, k);
      FreedStores(layout, mem, k);
      Put(cur, Field.Free, 1);
    }

    /** Block `i`, at `cur`, joins its predecessor at `prev` if that is free. */
    method JoinBack(cur: nat, prev: nat, ghost bs: seq<Block>, ghost i: nat) returns (at: nat)
      requires Listed(bs) && i < |bs| && bs[i].addr == cur && bs[i].free && prev == Header(bs, i).prev
      modifies `mem, `tail
      ensures at == MergeBack(bs, i).0[MergeBack(bs, i).1].addr
      ensures Listed(MergeBack(bs, i).0) && mem.Keys == old(mem).Keys
      ensures forall x: nat :: x in mem && Owned(bs, x) ==> mem[x] == old(mem)[x]
    {
      hide InOrder, Aligned, Backed, Linked, MetaAt, Owned;
      if i > 0 {
        LinkedAt(mem, bs, i - 1);
      }
      at := cur;
      if prev != 0 && MetaAt(mem, prev).free {
        Absorb(prev, cur, bs, i - 1);
        at := prev;
      }
    }

    /** Block `i`, at `cur`, takes over its successor at `next` if that is free. */
    method JoinForward(cur: nat, next: nat, ghost bs: seq<Block>, ghost i: nat)
      requires Listed(bs) && i < |bs| && bs[i].addr == cur && bs[i].free && next == Header(bs, i).next
      modifies `mem, `tail
      ensures Listed(MergeForward(bs, i)) && mem.Keys == old(mem).Keys
      ensures forall x: nat :: x in mem && Owned(bs, x) ==> mem[x] == old(mem)[x]
    {
      hide InOrder, Aligned, Backed, Linked, MetaAt, Owned;
      if i + 1 < |bs| {
        LinkedAt(mem, bs, i + 1);
      }
      if next != 0 && MetaAt(mem, next).free {
        Absorb(cur, next, bs, i);
      }
    }

    /** Frees the live block whose header is at `cur`. */
    method FreeBlock(cur: nat, ghost k: nat)
      requires Valid() && k < |layout.blocks| && !layout.blocks[k].free && layout.blocks[k].addr == cur
      modifies `mem, `tail, `layout
      ensures Valid() && layout == Release(old(layout), k) && mem.Keys == old(mem).Keys
      ensures forall x: nat :: x in mem && Owned(layout.blocks, x) ==> x in old(mem) && mem[x] == old(mem)[x]
    {
      hide WellFormed, InOrder, Aligned, Inside, Backed, Linked, MetaAt, Owned, Header, Live, MergeAt, MergeBack,
        MergeForward;
      ghost var l := layout;
      ghost var fs := l.blocks[k := l.blocks[k].(free := true)];
      ReleaseKeeps(l, k);
      ReleaseLive(l, k);
      MarkFree(cur, k);
      LinkedAt(mem, fs, k);
      BackHeader(fs, k);
      var prev, next := MetaAt(mem, cur).prev, MetaAt(mem, cur).next;
      ghost var (bs, i) := MergeBack(fs, k);
      var at := JoinBack(cur, prev, fs, k);
      JoinForward(at, next, bs, i);
      layout := Release(l, k);
    }

    /** free.  A null pointer is ignored; otherwise `ptr` must be a live payload. */
    method Free(ptr: nat, ghost k: nat)
      requires Valid() && (ptr != 0 ==> PointsTo(layout.blocks, k, ptr))
      modifies `mem, `tail, `layout
      ensures Valid() && mem.Keys == old(mem).Keys
      ensures layout == if ptr == 0 then old(layout) else Release(old(layout), k)
      ensures ptr != 0 ==> Live(layout.blocks) == Live(old(layout).blocks) - {old(layout).blocks[k]}
      ensures forall x: nat :: x in mem && Owned(layout.blocks, x) ==> x in old(mem) && mem[x] == old(mem)[x]
    {
      if ptr != 0 {
        ReleaseKeeps(layout, k);
        hide WellFormed, Live, Linked, Backed, Owned, Release;
        FreeBlock(ptr - HDR, k);
      }
    }

    /** Any store inside a live payload, by the client or by memset and memcpy: the heap does not
        notice, and no other payload changes. */
    method StorePayload(ptr: nat, offset: nat, bytes: seq<Byte>, ghost k: nat)
      requires Valid() && PointsTo(layout.blocks, k, ptr) && offset + |bytes| <= layout.blocks[k].size
      modifies `mem
      ensures Valid() && mem.Keys == old(mem).Keys
      ensures Contains(mem, ptr + offset, bytes)
      ensures forall x :: x in mem && !(ptr + offset <= x < ptr + offset + |bytes|) ==> mem[x] == old(mem)[x]
    {
      hide WellFormed, Linked;
      BlockBounds(layout, k);
      PayloadStoreUnseen(layout, mem, k, ptr + offset, bytes);
      mem := Write(mem, ptr + offset, bytes);
    }

    /** Fills the first bytes of a block that was just handed out. */
    method FillNew(ptr: nat, bytes: seq<Byte>, ghost l: Layout, ghost b: Block)
      requires Valid() && WellFormed(l) && ptr == Payload(b) && |bytes| <= b.size
      requires b in Live(layout.blocks) && b !in Live(l.blocks) && Live(l.blocks) <= Live(layout.blocks)
      modifies `mem
      ensures Valid() && mem.Keys == old(mem).Keys
      ensures Contains(mem, ptr, bytes)
      ensures forall x: nat :: x in mem && Owned(l.blocks, x) ==> mem[x] == old(mem)[x]
    {
      hide Linked, Backed, Owned, Live, NoFreeNeighbours, Aligned, Inside, Footprint, InOrder;
      FoundAt(layout.blocks, b);
      OthersApart(layout, l, b, ptr, |bytes|);
      hide WellFormed;
      StorePayload(ptr, 0, bytes, IndexAt(layout.blocks, b.addr));
    }

    /** The part of calloc behind the overflow test.  When rounding wrapped, the block is too small for
        the bytes to be zeroed and memset leaves the heap. */
    method AllocateZeroed(total: nat, first: bool, grant: bool) returns (r: Answer)
      requires Valid() && total < WORD
      modifies this
      ensures r.ExitProcess? <==> old(layout).blocks == [] && !(first && base + INITIAL <= limit)
      ensures !r.ExitProcess? ==>
        var (t, b) := MallocLayout(old(layout), total, grant && Boot(old(layout)).brk + RoundUp(total) + HDR <= limit);
        r == if Strays(Boot(old(layout)), RoundUp(total), grant, limit) then Fault
             else if b.None? then Null
             else if total + ALIGN - 1 < WORD then Pointer(Payload(b.value)) else Fault
      ensures Returned(r) ==> HandedOut(Live(old(layout).blocks), Live(layout.blocks), total, r)
      ensures Returned(r) ==>
        Valid() && layout ==
          MallocLayout(old(layout), total, grant && Boot(old(layout)).brk + RoundUp(total) + HDR <= limit).0
      ensures r.Pointer? ==> Contains(mem, r.addr, Zeros(total))
      ensures Returned(r) ==>
        forall x: nat :: x in old(mem) && Owned(old(layout).blocks, x) ==> x in mem && mem[x] == old(mem)[x]
    {
      hide WellFormed, Linked, Backed, Owned, MallocLayout, RoundUp, Live, SplitsInterior, HandedOut;
      ghost var l := layout;
      ghost var g := grant && Boot(l).brk + RoundUp(total) + HDR <= limit;
      PayloadExact(l, total, g);
      r := Malloc(total, first, grant, true);
      if r.Pointer? {
        PayloadInside(layout, MallocLayout(l, total, g).1.value);
        assert r.addr + total <= brk <==> total + ALIGN - 1 < WORD;
        if r.addr + total > brk {
          return Fault;
        }
        FillNew(r.addr, Zeros(total), l, MallocLayout(l, total, g).1.value);
      } else if r == Null {
        assert MallocLayout(l, total, g).1.None?;
      }
    }

    /** calloc. */
    method Calloc(num: nat, size: nat, first: bool, grant: bool) returns (r: Answer)
      requires Valid() && num < WORD && size < WORD
      modifies this
      ensures num * size >= WORD ==> r == Null && layout == old(layout) && mem == old(mem)
      ensures num * size < WORD ==>
        (r.ExitProcess? <==> old(layout).blocks == [] && !(first && base + INITIAL <= limit))
      ensures num * size < WORD && !r.ExitProcess? ==>
        var more := grant && Boot(old(layout)).brk + RoundUp(num * size) + HDR <= limit;
        var (t, b) := MallocLayout(old(layout), num * size, more);
        && r == (if Strays(Boot(old(layout)), RoundUp(num * size), grant, limit) then Fault
                 else if b.None? then Null
                 else if num * size + ALIGN - 1 < WORD then Pointer(Payload(b.value)) else Fault)
        && (Returned(r) ==> layout == t)
      ensures Returned(r) ==> Valid() && HandedOut(Live(old(layout).blocks), Live(layout.blocks), num * size, r)
      ensures r.Pointer? ==> Contains(mem, r.addr, Zeros(num * size))
      ensures Returned(r) ==>
        forall x: nat :: x in old(mem) && Owned(old(layout).blocks, x) ==> x in mem && mem[x] == old(mem)[x]
    {
      hide Linked, Backed, Owned, RoundUp, MallocLayout, WellFormed, Contains, Live;
      ProductOverflow(num, size);
      if num != 0 && size > (WORD - 1) / num {
        return Null;
      }
      r := AllocateZeroed(num * size, first, grant);
    }

    /** The part of realloc that moves a block to a larger one.  When rounding wrapped, the new block has
        no bytes and memcpy stores what the old one had behind it. */
    method Move(ptr: nat, size: nat, first: bool, grant: bool, ghost k: nat) returns (r: Answer)
      requires Valid() && size < WORD && PointsTo(layout.blocks, k, ptr)
      requires layout.blocks[k].size < size
      modifies this
      ensures !r.ExitProcess? && (Returned(r) ==> Valid())
      ensures r.Fault? <==> MoveStrays(old(layout), k, size, grant, limit)
      ensures Returned(r) ==>
        var l := old(layout);
        var (t, b) := MallocLayout(l, size, grant && l.brk + RoundUp(size) + HDR <= limit);
        && r == (if b.Some? then Pointer(Payload(b.value)) else Null)
        && (b.None? ==> layout == t)
        && (b.Some? ==> IsLiveAt(t.blocks, l.blocks[k].addr))
        && (b.Some? ==> layout == Release(t, IndexAt(t.blocks, l.blocks[k].addr)))
      ensures Mapped(old(mem), ptr, old(layout).blocks[k].size)
      ensures r.Pointer? ==> Contains(mem, r.addr, Read(old(mem), ptr, old(layout).blocks[k].size))
      ensures Returned(r) ==>
        var others := old(layout).blocks[k := old(layout).blocks[k].(free := true)];
        forall x: nat :: x in old(mem) && Owned(others, x) ==> x in mem && mem[x] == old(mem)[x]
    {
      hide WellFormed, Linked, Backed, Owned, Allocate, RoundUp, Live, SplitsInterior, Release, MetaAt;
      ghost var l := layout;
      ghost var m0 := mem;
      ghost var g := grant && l.brk + RoundUp(size) + HDR <= limit;
      OwnPayload(l.blocks, k);
      BlockBounds(l, k);
      BackedMapped(mem, base, brk, ptr, l.blocks[k].size);
      PayloadExact(l, size, g);
      MovePlan(l, k, size, g);
      r := Malloc(size, first, grant, true);
      if r.Pointer? {
        LinkedAt(mem, layout.blocks, IndexAt(layout.blocks, l.blocks[k].addr));
        if MetaAt(mem, ptr - HDR).size > RoundUp(size) {
          return Fault;
        }
        ghost var t := layout;
        ghost var b := MallocLayout(l, size, g).1.value;
        ghost var j := IndexAt(t.blocks, l.blocks[k].addr);
        LinkedAt(mem, t.blocks, j);
        BlockBounds(t, j);
        BackedMapped(mem, base, brk, ptr, l.blocks[k].size);
        var bytes := Read(mem, ptr, MetaAt(mem, ptr - HDR).size);
        assert bytes == Read(m0, ptr, l.blocks[k].size);
        FillNew(r.addr, bytes, l, b);
        MoveOwned(l, t, k, j, b);
        ghost var m1 := mem;
        FreeBlock(ptr - HDR, j);
        ContainsStays(m1, mem, r.addr, bytes);
      }
    }

    /** realloc. */
    method Realloc(ptr: nat, size: nat, first: bool, grant: bool, ghost k: nat) returns (r: Answer)
      requires Valid() && size < WORD
      requires ptr != 0 ==> PointsTo(layout.blocks, k, ptr)
      modifies this
      ensures Returned(r) ==> Valid()
      ensures r.ExitProcess? <==> ptr == 0 && old(layout).blocks == [] && !(first && base + INITIAL <= limit)
      ensures r.Fault? <==>
        if ptr == 0 then !r.ExitProcess? && Strays(Boot(old(layout)), RoundUp(size), grant, limit)
        else size > old(layout).blocks[k].size && MoveStrays(old(layout), k, size, grant, limit)
      ensures ptr == 0 && Returned(r) ==>
        var (t, b) := MallocLayout(old(layout), size, grant && Boot(old(layout)).brk + RoundUp(size) + HDR <= limit);
        layout == t && r == if b.Some? then Pointer(Payload(b.value)) else Null
      ensures ptr == 0 && Returned(r) ==> HandedOut(Live(old(layout).blocks), Live(layout.blocks), size, r)
      ensures ptr == 0 && Returned(r) ==>
        forall x: nat :: x in old(mem) && Owned(old(layout).blocks, x) ==> x in mem && mem[x] == old(mem)[x]
      ensures ptr != 0 && size == 0 ==>
        r == Null && Live(layout.blocks) == Live(old(layout).blocks) - {old(layout).blocks[k]}
      ensures ptr != 0 && Returned(r) ==> exists a ::
        Leads(r, a) && Resized(Live(old(layout).blocks), Live(layout.blocks), old(layout).blocks[k], size, a)
      ensures ptr != 0 && Returned(r) ==>
        var (t, b) := ReallocLayout(old(layout), k, size, grant && old(brk) + RoundUp(size) + HDR <= limit);
        layout == t && r == if b.Some? then Pointer(Payload(b.value)) else Null
      ensures ptr != 0 ==> Mapped(old(mem), ptr, Min(old(layout).blocks[k].size, size))
      ensures ptr != 0 && r.Pointer? ==>
        Contains(mem, r.addr, Read(old(mem), ptr, Min(old(layout).blocks[k].size, size)))
      ensures ptr != 0 && Returned(r) ==>
        var others := old(layout).blocks[k := old(layout).blocks[k].(free := true)];
        forall x: nat :: x in old(mem) && Owned(others, x) ==> x in mem && mem[x] == old(mem)[x]
    {
      hide WellFormed, Linked, Backed, Owned, Allocate, RoundUp, Live, SplitsInterior, Release, MetaAt, HandedOut,
        Resized;
      if ptr == 0 {
        r := Malloc(size, first, grant, true);
        return;
      }
      ghost var l := layout;
      OwnPayload(l.blocks, k);
      ReleasedOwned(l, k);
      BlockBounds(l, k);
      BackedMapped(mem, base, brk, ptr, Min(l.blocks[k].size, size));
      ghost var more := grant && l.brk + RoundUp(size) + HDR <= limit;
      ReallocResizes(l, k, size, more);
      assert Leads(Null, None) && forall b :: Leads(Pointer(Payload(b)), Some(b));
      if size == 0 {
        Free(ptr, k);
        return Null;
      }
      LinkedAt(mem, l.blocks, k);
      if MetaAt(mem, ptr - HDR).size >= size {
        return Pointer(ptr);
      }
      PayloadExact(l, size, more);
      r := Move(ptr, size, first, grant, k);
    }
  }
}
