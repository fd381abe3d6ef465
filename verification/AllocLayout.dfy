/** The heap as a sequence of blocks in address order: what malloc, free and realloc do to it, and
    what every sequence of calls keeps. */
module AllocLayout {
  import opened Basics

  /** sizeof(struct metadata) on a 64-bit target. */
  const HDR: nat := 32
  const ALIGN: nat := 8
  const INITIAL: nat := 256 * 1024 * 1024
  /** Number of values of size_t. */
  const WORD: nat := 0x1_0000_0000_0000_0000

  datatype Block = Block(addr: nat, size: nat, free: bool)

  /** `lost` counts the bytes dropped when a fit was too tight to split. */
  datatype Layout = Layout(base: nat, blocks: seq<Block>, brk: nat, lost: nat)

  function End(b: Block): nat {
    b.addr + HDR + b.size
  }

  // ---- sizes ------------------------------------------------------------------------------------

  /** Rounding a request up to the alignment, in size_t arithmetic. */
  function RoundUp(n: nat): (r: nat)
    ensures r % ALIGN == 0 && r < WORD
  {
    (n + (ALIGN - 1)) % WORD / ALIGN * ALIGN
  }

  /** The argument sbrk receives for a rounded size, as a signed 64-bit increment. */
  function Increment(size: nat): int {
    var u := (size + HDR) % WORD;
    if u < WORD / 2 then u else u - WORD
  }

  /** Rounding keeps a size, up to the alignment, exactly when the addition does not wrap; when it
      wraps nothing is left. */
  lemma RoundUpExact(n: nat)
    requires n < WORD
    ensures if n + ALIGN - 1 < WORD then n <= RoundUp(n) < n + ALIGN else RoundUp(n) == 0
  {
    var s := n + (ALIGN - 1);
    if s < WORD {
      assert s % WORD == s;
    } else {
      assert s % WORD == s - WORD < ALIGN;
    }
  }

  // ---- well-formed layouts ----------------------------------------------------------------------

  predicate InOrder(bs: seq<Block>) {
    forall i, j :: 0 <= i < j < |bs| ==> End(bs[i]) <= bs[j].addr
  }

  predicate OnGrid(n: nat) {
    n % ALIGN == 0
  }

  lemma MultipleOnGrid(x: nat)
    ensures OnGrid(ALIGN * x)
  {
  }

  lemma GridSteps(a: nat, b: nat)
    requires OnGrid(a) && OnGrid(b)
    ensures OnGrid(a + b) && OnGrid(a + HDR) && OnGrid(a + b + HDR)
    ensures a >= b ==> OnGrid(a - b)
    ensures a >= b + HDR ==> OnGrid(a - b - HDR)
    ensures b <= a < b + HDR + ALIGN ==> a - b <= 32
  {
    var x, y := a / ALIGN, b / ALIGN;
    assert a == ALIGN * x && b == ALIGN * y;
    MultipleOnGrid(x + y);
    MultipleOnGrid(x + HDR / ALIGN);
    MultipleOnGrid(x + y + HDR / ALIGN);
    if a >= b {
      MultipleOnGrid(x - y);
    }
    if a >= b + HDR {
      MultipleOnGrid(x - y - HDR / ALIGN);
    }
  }

  predicate Aligned(bs: seq<Block>) {
    forall i :: 0 <= i < |bs| ==> OnGrid(bs[i].addr) && OnGrid(bs[i].size)
  }

  predicate Inside(bs: seq<Block>, low: nat, high: nat) {
    forall i :: 0 <= i < |bs| ==> low <= bs[i].addr && End(bs[i]) <= high
  }

  predicate NoFreeNeighbours(bs: seq<Block>) {
    forall i :: 0 <= i < |bs| - 1 ==> !(bs[i].free && bs[i + 1].free)
  }

  function Footprint(bs: seq<Block>): nat {
    if bs == [] then 0 else bs[0].size + HDR + Footprint(bs[1..])
  }

  /** Address-ordered, aligned, inside the break, no two free neighbours, and every byte taken from
      sbrk is in a block or counted as lost.  Before the first call there are no blocks. */
  predicate WellFormed(l: Layout) {
    && OnGrid(l.base) && l.base > 0 && OnGrid(l.brk)
    && InOrder(l.blocks) && Aligned(l.blocks) && NoFreeNeighbours(l.blocks)
    && Inside(l.blocks, l.base, l.brk)
    && l.base + Footprint(l.blocks) + l.lost == l.brk
    && if l.blocks == [] then l.lost == 0 else l.blocks[0].addr == l.base
  }

  ghost function Live(bs: seq<Block>): set<Block> {
    set b | b in bs && !b.free
  }

  function Payload(b: Block): nat {
    b.addr + HDR
  }

  /** Live payloads are aligned, inside the heap and pairwise disjoint. */
  lemma LivePayloadsDisjoint(l: Layout, a: Block, b: Block)
    requires WellFormed(l) && a in Live(l.blocks) && b in Live(l.blocks)
    ensures OnGrid(Payload(a)) && l.base + HDR <= Payload(a) && Payload(a) + a.size <= l.brk
    ensures a != b ==> Payload(a) + a.size <= b.addr || Payload(b) + b.size <= a.addr
  {
    hide OnGrid, NoFreeNeighbours, Footprint;
    var i :| 0 <= i < |l.blocks| && l.blocks[i] == a;
    var j :| 0 <= j < |l.blocks| && l.blocks[j] == b;
    GridSteps(a.addr, a.addr);
    assert i < j ==> End(l.blocks[i]) <= l.blocks[j].addr;
    assert j < i ==> End(l.blocks[j]) <= l.blocks[i].addr;
  }

  lemma {:induction false} FootprintSplits(a: seq<Block>, b: seq<Block>)
    ensures Footprint(a + b) == Footprint(a) + Footprint(b)
  {
    if a == [] {
      assert a + b == b;
    } else {
      assert (a + b)[1..] == a[1..] + b;
      FootprintSplits(a[1..], b);
    }
  }

  // ---- choosing a block -------------------------------------------------------------------------

  predicate Fits(b: Block, n: nat) {
    b.free && b.size >= n
  }

  function FirstFit(bs: seq<Block>, n: nat): (r: Option<nat>)
    ensures r.Some? ==> r.value < |bs| && Fits(bs[r.value], n) && forall i :: 0 <= i < r.value ==> !Fits(bs[i], n)
    ensures r.None? ==> forall i :: 0 <= i < |bs| ==> !Fits(bs[i], n)
  {
    if bs == [] then None
    else if Fits(bs[0], n) then Some(0)
    else match FirstFit(bs[1..], n)
      case None => None
      case Some(i) => Some(i + 1)
  }

  /** The last block if it fits, else the first that does. */
  function Pick(bs: seq<Block>, n: nat): (r: Option<nat>)
    requires bs != []
    ensures r.Some? ==> r.value < |bs| && Fits(bs[r.value], n)
    ensures r.Some? && r.value < |bs| - 1 ==> forall i :: 0 <= i < r.value || i == |bs| - 1 ==> !Fits(bs[i], n)
    ensures r.None? <==> forall i :: 0 <= i < |bs| ==> !Fits(bs[i], n)
  {
    if Fits(bs[|bs| - 1], n) then Some(|bs| - 1) else FirstFit(bs, n)
  }

  // ---- the operations ---------------------------------------------------------------------------

  /** Enough room behind `n` bytes for another header and one aligned unit. */
  predicate Splits(b: Block, n: nat) {
    b.size != n && b.size >= n + HDR + ALIGN
  }

  function Take(l: Layout, k: nat, n: nat): Layout
    requires k < |l.blocks| && Fits(l.blocks[k], n)
  {
    var b := l.blocks[k];
    var used := Block(b.addr, n, false);
    if Splits(b, n) then
      var rest := Block(b.addr + HDR + n, b.size - n - HDR, true);
      l.(blocks := l.blocks[..k] + [used, rest] + l.blocks[k + 1..])
    else
      l.(blocks := l.blocks[k := used], lost := l.lost + (b.size - n))
  }

  /** Block `b` gave its first `n` bytes away: what is left is a free block of at least one unit behind
      its header, or is lost if it cannot be. */
  predicate Cut(b: Block, n: nat, bs: seq<Block>, lost: int)
    requires b.size >= n
  {
    && Block(b.addr, n, false) in bs
    && if b.size - n >= HDR + ALIGN then lost == 0 && Block(b.addr + HDR + n, b.size - n - HDR, true) in bs
       else lost == b.size - n
  }

  lemma TakeCuts(l: Layout, k: nat, n: nat)
    requires k < |l.blocks| && Fits(l.blocks[k], n)
    ensures Cut(l.blocks[k], n, Take(l, k, n).blocks, Take(l, k, n).lost - l.lost)
    ensures Take(l, k, n).brk == l.brk && Take(l, k, n).base == l.base
    ensures forall i :: 0 <= i < |l.blocks| && i != k ==> l.blocks[i] in Take(l, k, n).blocks
  {
    var ts := Take(l, k, n).blocks;
    forall i | 0 <= i < |l.blocks| && i != k
      ensures l.blocks[i] in ts
    {
      assert ts[if i < k then i else i + |ts| - |l.blocks|] == l.blocks[i];
    }
    assert ts[k] == Block(l.blocks[k].addr, n, false);
    if Splits(l.blocks[k], n) {
      assert ts[k + 1].free;
    }
  }

  function Grow(l: Layout, n: nat): Layout {
    l.(blocks := l.blocks + [Block(l.brk, n, false)], brk := l.brk + n + HDR)
  }

  function Boot(l: Layout): Layout {
    if l.blocks != [] then l
    else l.(blocks := [Block(l.base, INITIAL - HDR, true)], brk := l.base + INITIAL)
  }

  /** The break sbrk moves to for a block of `size` bytes when the kernel grants it; it does not go
      below the base. */
  function BreakFor(l: Layout, size: nat): Option<nat> {
    var moved := l.brk + Increment(size);
    if moved < l.base then None else Some(moved)
  }

  /** sbrk is asked for more memory, or for so much less that it refuses. */
  predicate Growable(l: Layout, size: nat) {
    size + HDR < WORD / 2 || size + HDR + l.brk < WORD + l.base
  }

  /** What growing does for every size_t: from half the address space on the increment is negative,
      and from where it no longer leads below the base the header of the new block itself lies beyond
      the new break.  Exactly the growable sizes are refused or get all their bytes. */
  lemma GrowthExact(l: Layout, size: nat)
    requires size < WORD && l.base <= l.brk < WORD / 2
    ensures var moved := BreakFor(l, size);
      && (size + HDR < WORD / 2 <==> moved.Some? && l.brk + HDR + size <= moved.value)
      && (size + HDR < WORD / 2 ==> moved == Some(l.brk + HDR + size))
      && (size + HDR >= WORD / 2 && Growable(l, size) ==> moved.None?)
      && (!Growable(l, size) ==> moved.Some? && moved.value < l.brk + HDR)
  {
    var u := size + HDR;
    if u < WORD {
      assert u % WORD == u;
    } else {
      assert u % WORD == u - WORD;
    }
  }

  /** Where the next allocation of `n` (already rounded) bytes goes, if anywhere; `grant` says
      whether the kernel would extend the heap. */
  function Allocate(l: Layout, n: nat, grant: bool): (r: (Layout, Option<Block>))
    requires l.blocks != []
  {
    match Pick(l.blocks, n)
    case Some(k) => (Take(l, k, n), Some(Block(l.blocks[k].addr, n, false)))
    case None => if grant then (Grow(l, n), Some(Block(l.brk, n, false))) else (l, None)
  }

  function MergeAt(bs: seq<Block>, i: nat): seq<Block>
    requires i + 1 < |bs|
  {
    bs[..i] + [Block(bs[i].addr, bs[i].size + bs[i + 1].size + HDR, bs[i].free)] + bs[i + 2..]
  }

  function MergeBack(bs: seq<Block>, k: nat): (r: (seq<Block>, nat))
    requires k < |bs|
    ensures r.1 < |r.0|
  {
    if k > 0 && bs[k - 1].free then (MergeAt(bs, k - 1), k - 1) else (bs, k)
  }

  function MergeForward(bs: seq<Block>, k: nat): seq<Block>
    requires k < |bs|
  {
    if k + 1 < |bs| && bs[k + 1].free then MergeAt(bs, k) else bs
  }

  /** Freeing block `k`: it joins a free predecessor, and the result joins a free successor. */
  function Release(l: Layout, k: nat): Layout
    requires k < |l.blocks|
  {
    var (bs, i) := MergeBack(l.blocks[k := l.blocks[k].(free := true)], k);
    l.(blocks := MergeForward(bs, i))
  }

  // ---- what they keep ---------------------------------------------------------------------------

  lemma BootKeeps(l: Layout)
    requires WellFormed(l)
    ensures WellFormed(Boot(l)) && Boot(l).blocks != [] && Boot(l).lost == l.lost
    ensures Live(Boot(l).blocks) == Live(l.blocks)
  {
    if l.blocks == [] {
      assert Footprint(Boot(l).blocks) == INITIAL + Footprint([]);
      assert forall b :: b in Boot(l).blocks ==> b.free;
      assert Live(Boot(l).blocks) == {} == Live(l.blocks);
    }
  }

  lemma ReplaceFootprint(bs: seq<Block>, k: nat, mid: seq<Block>, tail: nat)
    requires k < tail <= |bs|
    ensures Footprint(bs[..k] + mid + bs[tail..]) + Footprint(bs[k..tail]) == Footprint(bs) + Footprint(mid)
  {
    FootprintSplits(bs[..k] + mid, bs[tail..]);
    FootprintSplits(bs[..k], mid);
    assert bs == bs[..k] + bs[k..tail] + bs[tail..];
    FootprintSplits(bs[..k] + bs[k..tail], bs[tail..]);
    FootprintSplits(bs[..k], bs[k..tail]);
  }

  lemma SpliceInOrder(bs: seq<Block>, k: nat, m: nat, mid: seq<Block>)
    requires InOrder(bs) && k < m <= |bs|
    requires InOrder(mid) && Inside(mid, bs[k].addr, End(bs[m - 1]))
    ensures InOrder(bs[..k] + mid + bs[m..])
  {
    var all := bs[..k] + mid + bs[m..];
    forall i, j | 0 <= i < j < |all|
      ensures End(all[i]) <= all[j].addr
    {
      if j < k {
        assert all[i] == bs[i] && all[j] == bs[j];
      } else if j < k + |mid| {
        assert all[j] == mid[j - k];
        if i < k {
          assert all[i] == bs[i];
        } else {
          assert all[i] == mid[i - k];
        }
      } else {
        assert all[j] == bs[j - k - |mid| + m];
        if i < k {
          assert all[i] == bs[i];
        } else if i < k + |mid| {
          assert all[i] == mid[i - k] && End(bs[m - 1]) <= all[j].addr;
        } else {
          assert all[i] == bs[i - k - |mid| + m];
        }
      }
    }
  }

  /** Replacing consecutive blocks by others inside the same address range. */
  lemma SpliceKeeps(bs: seq<Block>, k: nat, m: nat, mid: seq<Block>, low: nat, high: nat)
    requires InOrder(bs) && Aligned(bs) && Inside(bs, low, high)
    requires k < m <= |bs|
    requires InOrder(mid) && Aligned(mid) && Inside(mid, bs[k].addr, End(bs[m - 1]))
    ensures InOrder(bs[..k] + mid + bs[m..])
    ensures Aligned(bs[..k] + mid + bs[m..])
    ensures Inside(bs[..k] + mid + bs[m..], low, high)
  {
    hide OnGrid;
    var all := bs[..k] + mid + bs[m..];
    SpliceInOrder(bs, k, m, mid);
    hide InOrder;
    forall i | 0 <= i < |all|
      ensures OnGrid(all[i].addr) && OnGrid(all[i].size) && low <= all[i].addr && End(all[i]) <= high
    {
      if i < k {
        assert all[i] == bs[i];
      } else if i < k + |mid| {
        assert all[i] == mid[i - k];
      } else {
        assert all[i] == bs[i - k - |mid| + m];
      }
    }
  }

  lemma TakePairs(l: Layout, k: nat, n: nat)
    requires NoFreeNeighbours(l.blocks) && k < |l.blocks| && Fits(l.blocks[k], n)
    ensures NoFreeNeighbours(Take(l, k, n).blocks)
  {
    var t := Take(l, k, n);
    var m := |t.blocks| - |l.blocks|;
    forall i | 0 <= i < |t.blocks| - 1
      ensures !(t.blocks[i].free && t.blocks[i + 1].free)
    {
      if i < k {
        assert t.blocks[i] == l.blocks[i];
        assert !(l.blocks[i].free && l.blocks[i + 1].free);
      } else if i > k + m {
        assert t.blocks[i] == l.blocks[i - m] && t.blocks[i + 1] == l.blocks[i - m + 1];
      } else if i == k + 1 {
        assert t.blocks[i + 1] == l.blocks[k + 1];
      }
    }
  }

  lemma PairOrder(bs: seq<Block>)
    requires |bs| <= 2 && (|bs| == 2 ==> End(bs[0]) <= bs[1].addr)
    ensures InOrder(bs)
  {
  }

  lemma TakeShape(l: Layout, k: nat, n: nat)
    requires WellFormed(l) && k < |l.blocks| && Fits(l.blocks[k], n) && OnGrid(n)
    ensures var t := Take(l, k, n);
      InOrder(t.blocks) && Aligned(t.blocks) && NoFreeNeighbours(t.blocks) && Inside(t.blocks, t.base, t.brk)
  {
    hide OnGrid, Footprint, NoFreeNeighbours, InOrder;
    TakePairs(l, k, n);
    var b := l.blocks[k];
    var t := Take(l, k, n);
    assert OnGrid(b.addr) && OnGrid(b.size);
    GridSteps(b.addr, n);
    GridSteps(b.size, n);
    GridSteps(b.addr + n, b.addr + n);
    var mid := if Splits(b, n) then [t.blocks[k], t.blocks[k + 1]] else [t.blocks[k]];
    assert t.blocks == l.blocks[..k] + mid + l.blocks[k + 1..];
    assert Aligned(mid);
    assert InOrder(mid) by {
      PairOrder(mid);
    }
    SpliceKeeps(l.blocks, k, k + 1, mid, l.base, l.brk);
  }

  lemma NotLiveYet(bs: seq<Block>, k: nat, n: nat)
    requires InOrder(bs) && k < |bs| && bs[k].free
    ensures Block(bs[k].addr, n, false) !in Live(bs)
  {
    forall i | 0 <= i < |bs|
      ensures bs[i] != Block(bs[k].addr, n, false)
    {
      assert i < k ==> End(bs[i]) <= bs[k].addr;
      assert k < i ==> End(bs[k]) <= bs[i].addr;
    }
  }

  lemma UpdateLive(bs: seq<Block>, k: nat, b: Block)
    requires k < |bs| && bs[k].free && !b.free
    ensures Live(bs[k := b]) == Live(bs) + {b}
  {
    forall x
      ensures x in Live(bs[k := b]) <==> x in Live(bs) + {b}
    {
      if x in Live(bs) {
        var i :| 0 <= i < |bs| && bs[i] == x;
        assert bs[k := b][i] == x;
      }
      assert bs[k := b][k] == b;
    }
  }

  lemma SplitLive(bs: seq<Block>, k: nat, used: Block, rest: Block)
    requires k < |bs| && bs[k].free && !used.free && rest.free
    ensures Live(bs[..k] + [used, rest] + bs[k + 1..]) == Live(bs) + {used}
  {
    var ts := bs[..k] + [used, rest] + bs[k + 1..];
    assert bs == bs[..k] + [bs[k]] + bs[k + 1..];
    forall x
      ensures x in Live(ts) <==> x in Live(bs) + {used}
    {
      assert x in bs <==> x in bs[..k] || x == bs[k] || x in bs[k + 1..];
      assert x in ts <==> x in bs[..k] || x == used || x == rest || x in bs[k + 1..];
    }
  }

  lemma FootprintOne(b: Block)
    ensures Footprint([b]) == b.size + HDR
  {
    assert [b][1..] == [];
  }

  lemma FootprintTwo(a: Block, b: Block)
    ensures Footprint([a, b]) == a.size + b.size + 2 * HDR
  {
    assert [a, b] == [a] + [b];
    FootprintSplits([a], [b]);
    FootprintOne(a);
    FootprintOne(b);
  }

  lemma TakeFootprint(l: Layout, k: nat, n: nat)
    requires k < |l.blocks| && Fits(l.blocks[k], n)
    ensures var t := Take(l, k, n); Footprint(t.blocks) + t.lost == Footprint(l.blocks) + l.lost
  {
    hide Footprint;
    var b := l.blocks[k];
    var t := Take(l, k, n);
    assert l.blocks[k..k + 1] == [b];
    FootprintOne(b);
    if Splits(b, n) {
      ReplaceFootprint(l.blocks, k, [t.blocks[k], t.blocks[k + 1]], k + 1);
      FootprintTwo(t.blocks[k], t.blocks[k + 1]);
    } else {
      assert t.blocks == l.blocks[..k] + [t.blocks[k]] + l.blocks[k + 1..];
      ReplaceFootprint(l.blocks, k, [t.blocks[k]], k + 1);
      FootprintOne(t.blocks[k]);
    }
  }

  /** Taking a block: the heap stays well formed, exactly one block becomes live, and at most 32
      bytes are lost. */
  lemma TakeKeeps(l: Layout, k: nat, n: nat)
    requires WellFormed(l) && k < |l.blocks| && Fits(l.blocks[k], n) && OnGrid(n)
    ensures WellFormed(Take(l, k, n)) && Take(l, k, n).blocks != []
    ensures Live(Take(l, k, n).blocks) == Live(l.blocks) + {Block(l.blocks[k].addr, n, false)}
    ensures Block(l.blocks[k].addr, n, false) !in Live(l.blocks)
    ensures l.lost <= Take(l, k, n).lost <= l.lost + 32
  {
    TakeShape(l, k, n);
    TakeFootprint(l, k, n);
    var b := l.blocks[k];
    var t := Take(l, k, n);
    assert OnGrid(b.size);
    GridSteps(b.size, n);
    NotLiveYet(l.blocks, k, n);
    hide InOrder, Aligned, NoFreeNeighbours, Inside, OnGrid, Live, Footprint;
    if Splits(b, n) {
      SplitLive(l.blocks, k, t.blocks[k], t.blocks[k + 1]);
    } else {
      UpdateLive(l.blocks, k, t.blocks[k]);
    }
  }

  lemma GrowInside(l: Layout, n: nat)
    requires Aligned(l.blocks) && Inside(l.blocks, l.base, l.brk) && OnGrid(n) && OnGrid(l.brk) && l.base <= l.brk
    ensures Aligned(l.blocks + [Block(l.brk, n, false)])
    ensures Inside(l.blocks + [Block(l.brk, n, false)], l.base, l.brk + n + HDR)
  {
  }

  lemma GrowKeeps(l: Layout, n: nat)
    requires WellFormed(l) && l.blocks != [] && OnGrid(n)
    ensures WellFormed(Grow(l, n)) && Grow(l, n).blocks != []
    ensures Live(Grow(l, n).blocks) == Live(l.blocks) + {Block(l.brk, n, false)}
    ensures Block(l.brk, n, false) !in Live(l.blocks)
  {
    hide OnGrid;
    var added := Block(l.brk, n, false);
    GridSteps(l.brk, n);
    FootprintSplits(l.blocks, [added]);
    assert Footprint([added]) == n + HDR + Footprint([]);
    forall i | 0 <= i < |l.blocks|
      ensures l.blocks[i] != added
    {
      assert End(l.blocks[i]) <= l.brk;
    }
    assert InOrder(l.blocks + [added]);
    hide InOrder, Aligned, Inside;
    assert Aligned(Grow(l, n).blocks) && Inside(Grow(l, n).blocks, l.base, l.brk + n + HDR) by {
      GrowInside(l, n);
    }
  }

  lemma MergeFootprint(bs: seq<Block>, i: nat)
    requires i + 1 < |bs|
    ensures Footprint(MergeAt(bs, i)) == Footprint(bs)
  {
    var mid := [MergeAt(bs, i)[i]];
    ReplaceFootprint(bs, i, mid, i + 2);
    assert bs[i..i + 2] == [bs[i], bs[i + 1]];
    FootprintTwo(bs[i], bs[i + 1]);
    FootprintOne(mid[0]);
  }

  lemma MergeLive(bs: seq<Block>, i: nat)
    requires i + 1 < |bs| && bs[i].free && bs[i + 1].free
    ensures Live(MergeAt(bs, i)) == Live(bs)
  {
    var ms := MergeAt(bs, i);
    assert bs == bs[..i] + [bs[i], bs[i + 1]] + bs[i + 2..];
    forall x
      ensures x in Live(ms) <==> x in Live(bs)
    {
      assert x in bs <==> x in bs[..i] || x == bs[i] || x == bs[i + 1] || x in bs[i + 2..];
      assert x in ms <==> x in bs[..i] || x == ms[i] || x in bs[i + 2..];
    }
  }

  lemma MergeAtKeeps(bs: seq<Block>, i: nat, low: nat, high: nat)
    requires InOrder(bs) && Aligned(bs) && Inside(bs, low, high)
    requires i + 1 < |bs| && bs[i].free && bs[i + 1].free
    ensures InOrder(MergeAt(bs, i)) && Aligned(MergeAt(bs, i)) && Inside(MergeAt(bs, i), low, high)
    ensures Footprint(MergeAt(bs, i)) == Footprint(bs)
    ensures Live(MergeAt(bs, i)) == Live(bs)
    ensures |MergeAt(bs, i)| == |bs| - 1
    ensures forall j :: 0 <= j < |bs| - 1 ==>
      MergeAt(bs, i)[j].free == bs[if j <= i then j else j + 1].free && MergeAt(bs, i)[0].addr == bs[0].addr
  {
    hide OnGrid;
    var ms := MergeAt(bs, i);
    assert OnGrid(bs[i].addr) && OnGrid(bs[i].size) && OnGrid(bs[i + 1].size);
    GridSteps(bs[i].size, bs[i + 1].size);
    assert End(bs[i]) <= bs[i + 1].addr;
    SpliceKeeps(bs, i, i + 2, [ms[i]], low, high);
    hide InOrder, Aligned, Inside;
    assert forall j :: 0 <= j < i ==> ms[j] == bs[j];
    assert forall j :: i + 1 <= j < |ms| ==> ms[j] == bs[j + 1];
    MergeFootprint(bs, i);
    MergeLive(bs, i);
  }

  /** No two free neighbours except possibly around block `k`. */
  predicate FreePairsOnlyAt(bs: seq<Block>, k: nat) {
    forall i :: 0 <= i < |bs| - 1 && i != k && i + 1 != k ==> !(bs[i].free && bs[i + 1].free)
  }

  lemma FreedLive(bs: seq<Block>, k: nat)
    requires InOrder(bs) && k < |bs| && !bs[k].free
    ensures Live(bs[k := bs[k].(free := true)]) == Live(bs) - {bs[k]}
  {
    var fs := bs[k := bs[k].(free := true)];
    forall x
      ensures x in Live(fs) <==> x in Live(bs) - {bs[k]}
    {
      if x in Live(fs) {
        var i :| 0 <= i < |fs| && fs[i] == x;
        assert bs[i] == x;
        assert i < k ==> End(bs[i]) <= bs[k].addr;
        assert k < i ==> End(bs[k]) <= bs[i].addr;
      }
      if x in Live(bs) && x != bs[k] {
        var i :| 0 <= i < |bs| && bs[i] == x;
        assert fs[i] == x;
      }
    }
  }

  lemma MergedPairs(fs: seq<Block>, k: nat)
    requires FreePairsOnlyAt(fs, k) && 0 < k < |fs| && fs[k].free && fs[k - 1].free
    ensures FreePairsOnlyAt(MergeAt(fs, k - 1), k - 1)
    ensures k > 1 ==> !MergeAt(fs, k - 1)[k - 2].free
  {
    var bs := MergeAt(fs, k - 1);
    assert forall j :: 0 <= j < k - 1 ==> bs[j] == fs[j];
    assert forall j :: k <= j < |bs| ==> bs[j] == fs[j + 1];
    if k > 1 {
      var before, at := fs[k - 2], fs[k - 2 + 1];
      assert !(before.free && at.free);
    }
    forall i | 0 <= i < |bs| - 1 && i != k - 1 && i + 1 != k - 1
      ensures !(bs[i].free && bs[i + 1].free)
    {
      var j := if i < k - 1 then i else i + 1;
      assert !(fs[j].free && fs[j + 1].free);
    }
  }

  lemma PairsSettle(bs: seq<Block>, i: nat)
    requires FreePairsOnlyAt(bs, i) && i < |bs| && bs[i].free && (i > 0 ==> !bs[i - 1].free)
    ensures NoFreeNeighbours(MergeForward(bs, i))
  {
    var ms := MergeForward(bs, i);
    if i + 1 < |bs| && bs[i + 1].free {
      assert forall j :: 0 <= j < i ==> ms[j] == bs[j];
      assert forall j :: i + 1 <= j < |ms| ==> ms[j] == bs[j + 1];
    }
    forall j | 0 <= j < |ms| - 1
      ensures !(ms[j].free && ms[j + 1].free)
    {
      if j + 1 < i || ms == bs {
        assert j != i && j + 1 != i ==> !(bs[j].free && bs[j + 1].free);
      } else if j > i {
        assert !(bs[j + 1].free && bs[j + 1 + 1].free);
      }
    }
  }

  lemma FreedKeeps(l: Layout, k: nat)
    requires WellFormed(l) && k < |l.blocks| && !l.blocks[k].free
    ensures var fs := l.blocks[k := l.blocks[k].(free := true)];
      InOrder(fs) && Aligned(fs) && Inside(fs, l.base, l.brk) && FreePairsOnlyAt(fs, k)
      && Footprint(fs) == Footprint(l.blocks)
  {
    hide OnGrid;
    var fs := l.blocks[k := l.blocks[k].(free := true)];
    assert fs == l.blocks[..k] + [fs[k]] + l.blocks[k + 1..];
    SpliceKeeps(l.blocks, k, k + 1, [fs[k]], l.base, l.brk);
    hide InOrder, Aligned, Inside;
    ReplaceFootprint(l.blocks, k, [fs[k]], k + 1);
    assert l.blocks[k..k + 1] == [l.blocks[k]];
    assert Footprint([fs[k]]) == fs[k].size + HDR + Footprint([]);
    assert Footprint([l.blocks[k]]) == fs[k].size + HDR + Footprint([]);
  }

  /** Freeing a live block: the heap stays well formed, no other live block moves or changes, and
      nothing more is lost. */
  lemma ReleaseKeeps(l: Layout, k: nat)
    requires WellFormed(l) && k < |l.blocks| && !l.blocks[k].free
    ensures WellFormed(Release(l, k)) && Release(l, k).blocks != []
    ensures Live(Release(l, k).blocks) == Live(l.blocks) - {l.blocks[k]}
    ensures Release(l, k).lost == l.lost && Release(l, k).brk == l.brk
  {
    hide OnGrid, Live, InOrder, Aligned, Inside, Footprint, NoFreeNeighbours;
    var fs := l.blocks[k := l.blocks[k].(free := true)];
    FreedKeeps(l, k);
    FreedLive(l.blocks, k);
    var (bs, i) := MergeBack(fs, k);
    if k > 0 && fs[k - 1].free {
      MergeAtKeeps(fs, k - 1, l.base, l.brk);
      MergedPairs(fs, k);
    }
    if i + 1 < |bs| && bs[i + 1].free {
      MergeAtKeeps(bs, i, l.base, l.brk);
    }
    PairsSettle(bs, i);
  }

  /** One allocation, whichever way it goes. */
  lemma AllocateKeeps(l: Layout, n: nat, grant: bool)
    requires WellFormed(l) && l.blocks != [] && OnGrid(n)
    ensures var (t, r) := Allocate(l, n, grant);
      && WellFormed(t) && t.blocks != [] && l.lost <= t.lost <= l.lost + 32
      && (r.None? ==> t == l)
      && (r.Some? ==> r.value.size == n && !r.value.free && r.value !in Live(l.blocks)
                      && Live(t.blocks) == Live(l.blocks) + {r.value})
  {
    hide WellFormed, Live;
    match Pick(l.blocks, n) {
      case Some(k) => TakeKeeps(l, k, n);
      case None => if grant { GrowKeeps(l, n); }
    }
  }

  // ---- any sequence of calls --------------------------------------------------------------------

  /** The calls a client makes; a pointer is named by its block's address. */
  datatype Call =
    | CallMalloc(size: nat, grant: bool)
    | CallCalloc(num: nat, size: nat, grant: bool)
    | CallFree(addr: nat)
    | CallRealloc(addr: nat, size: nat, grant: bool)

  predicate IsLiveAt(bs: seq<Block>, a: nat) {
    exists i :: 0 <= i < |bs| && bs[i].addr == a && !bs[i].free
  }

  function IndexAt(bs: seq<Block>, a: nat): (k: nat)
    requires IsLiveAt(bs, a)
    ensures k < |bs| && bs[k].addr == a && !bs[k].free
  {
    if bs[0].addr == a && !bs[0].free then 0 else
      assert IsLiveAt(bs[1..], a) by {
        var i :| 0 <= i < |bs| && bs[i].addr == a && !bs[i].free;
        assert bs[1..][i - 1] == bs[i];
      }
      1 + IndexAt(bs[1..], a)
  }

  /** malloc finds no block and sbrk moves the break to where not even the new header fits. */
  predicate GrowsAstray(l: Layout, n: nat, grant: bool)
    requires l.blocks != []
  {
    Pick(l.blocks, n).None? && grant && !Growable(l, n)
  }

  /** The same under a limit on the break. */
  predicate Strays(l: Layout, n: nat, grant: bool, limit: nat)
    requires l.blocks != []
  {
    GrowsAstray(l, n, grant) && BreakFor(l, n).Some? && BreakFor(l, n).value <= limit
  }

  /** Should a resized block have to move, its bytes fit where they are copied. */
  predicate CopyFits(b: Block, n: nat) {
    b.size < n ==> b.size <= RoundUp(n)
  }

  /** Only the bytes of a block that is not empty, moved for a size whose rounding wraps, do not fit. */
  lemma CopyFitsExactly(b: Block, n: nat)
    requires n < WORD
    ensures CopyFits(b, n) <==> b.size >= n || n + ALIGN - 1 < WORD || b.size == 0
  {
    RoundUpExact(n);
  }

  /** What the standard asks of a caller: only live pointers are freed or resized.  Sizes are any
      size_t. */
  predicate Legal(l: Layout, c: Call) {
    match c
    case CallMalloc(n, _) => n < WORD
    case CallCalloc(num, size, _) => num < WORD && size < WORD
    case CallFree(a) => IsLiveAt(l.blocks, a)
    case CallRealloc(a, n, _) => IsLiveAt(l.blocks, a) && n < WORD
  }

  function MallocLayout(l: Layout, n: nat, grant: bool): (Layout, Option<Block>) {
    Allocate(Boot(l), RoundUp(n), grant && RoundUp(n) + HDR < WORD / 2)
  }

  lemma RoundUpOnGrid(n: nat)
    ensures OnGrid(RoundUp(n))
  {
  }

  lemma StillLive(bs: seq<Block>, ts: seq<Block>, k: nat)
    requires k < |bs| && !bs[k].free && Live(bs) <= Live(ts)
    ensures IsLiveAt(ts, bs[k].addr)
  {
    assert bs[k] in Live(ts);
    var i :| 0 <= i < |ts| && ts[i] == bs[k];
    assert ts[i].addr == bs[k].addr && !ts[i].free;
  }

  /** What realloc does to the layout, and the block its answer points into. */
  function ReallocLayout(l: Layout, k: nat, n: nat, grant: bool): (Layout, Option<Block>)
    requires k < |l.blocks| && WellFormed(l) && !l.blocks[k].free
  {
    if n == 0 then (Release(l, k), None)
    else if l.blocks[k].size >= n then (l, Some(l.blocks[k]))
    else
      var more := grant && RoundUp(n) + HDR < WORD / 2;
      var (t, r) := Allocate(l, RoundUp(n), more);
      if r.None? then (t, None) else
        RoundUpOnGrid(n);
        AllocateKeeps(l, RoundUp(n), more);
        StillLive(l.blocks, t.blocks, k);
        (Release(t, IndexAt(t.blocks, l.blocks[k].addr)), r)
  }

  /** malloc stores a header beyond the break, or bytes are then stored behind the block it found. */
  predicate GoesAstray(l: Layout, n: nat, stored: nat, grant: bool) {
    || GrowsAstray(Boot(l), RoundUp(n), grant)
    || (MallocLayout(l, n, grant).1.Some? && stored > RoundUp(n))
  }

  /** What a call makes of the layout; nothing is left of it when the call stores outside its block. */
  function Apply(l: Layout, c: Call): Option<Layout>
    requires WellFormed(l) && Legal(l, c)
  {
    match c
    case CallMalloc(n, grant) =>
      if GoesAstray(l, n, 0, grant) then None else Some(MallocLayout(l, n, grant).0)
    case CallCalloc(num, size, grant) =>
      if num * size >= WORD then Some(l)
      else if GoesAstray(l, num * size, num * size, grant) then None
      else Some(MallocLayout(l, num * size, grant).0)
    case CallFree(a) => Some(Release(l, IndexAt(l.blocks, a)))
    case CallRealloc(a, n, grant) =>
      var k := IndexAt(l.blocks, a);
      if n > l.blocks[k].size && GoesAstray(l, n, l.blocks[k].size, grant) then None
      else Some(ReallocLayout(l, k, n, grant).0)
  }

  lemma PairInOrder(bs: seq<Block>, i: nat, j: nat)
    requires InOrder(bs) && i < |bs| && j < |bs|
    ensures i < j ==> End(bs[i]) <= bs[j].addr
  {
  }

  /** A live block at an address is the only live block there. */
  lemma LiveAddressUnique(bs: seq<Block>, a: Block, b: Block)
    requires InOrder(bs) && a in bs && b in bs && a.addr == b.addr
    ensures a == b
  {
    var i :| 0 <= i < |bs| && bs[i] == a;
    var j :| 0 <= j < |bs| && bs[j] == b;
    assert i == j by {
      PairInOrder(bs, i, j);
      PairInOrder(bs, j, i);
    }
  }

  lemma MallocKeeps(l: Layout, n: nat, grant: bool)
    requires WellFormed(l)
    ensures WellFormed(MallocLayout(l, n, grant).0) && l.lost <= MallocLayout(l, n, grant).0.lost <= l.lost + 32
  {
    hide WellFormed, RoundUp, Allocate;
    BootKeeps(l);
    RoundUpOnGrid(n);
    AllocateKeeps(Boot(l), RoundUp(n), grant && RoundUp(n) + HDR < WORD / 2);
  }

  /** Any call that stores nowhere it should not: the heap stays well formed and at most 32 more bytes
      are lost. */
  lemma ApplyKeeps(l: Layout, c: Call)
    requires WellFormed(l) && Legal(l, c)
    ensures match Apply(l, c)
      case Some(t) => WellFormed(t) && l.lost <= t.lost <= l.lost + 32
      case None => !c.CallFree?
  {
    hide WellFormed, RoundUp, Allocate, Release, GoesAstray, MallocLayout;
    match c {
      case CallMalloc(n, grant) => MallocKeeps(l, n, grant);
      case CallCalloc(num, size, grant) => if num * size < WORD { MallocKeeps(l, num * size, grant); }
      case CallFree(a) => ReleaseKeeps(l, IndexAt(l.blocks, a));
      case CallRealloc(a, n, grant) =>
        var k := IndexAt(l.blocks, a);
        var more := grant && RoundUp(n) + HDR < WORD / 2;
        RoundUpOnGrid(n);
        AllocateKeeps(l, RoundUp(n), more);
        var (t, r) := Allocate(l, RoundUp(n), more);
        if n == 0 {
          ReleaseKeeps(l, k);
        } else if l.blocks[k].size < n && r.Some? {
          StillLive(l.blocks, t.blocks, k);
          ReleaseKeeps(t, IndexAt(t.blocks, a));
        }
    }
  }

  /** The number of bytes a call asks malloc for. */
  function Asked(c: Call): nat {
    match c
    case CallMalloc(n, _) => n
    case CallCalloc(num, size, _) => num * size
    case CallFree(_) => 0
    case CallRealloc(_, n, _) => n
  }

  /** No call for less than half the address space, header and rounding included, goes astray. */
  lemma OrdinaryCallsStay(l: Layout, c: Call)
    requires WellFormed(l) && Legal(l, c) && Asked(c) + ALIGN + HDR <= WORD / 2
    ensures Apply(l, c).Some?
  {
    RoundUpExact(Asked(c));
    hide WellFormed, RoundUp, Allocate, Release, ReallocLayout, MallocLayout, Boot, Pick;
  }

  /** What a successful malloc hands out: a block that was not live before, with room for the bytes
      asked for exactly when rounding did not wrap, and of no bytes at all when it did. */
  lemma PayloadExact(l: Layout, n: nat, grant: bool)
    requires WellFormed(l) && n < WORD
    ensures var (t, b) := MallocLayout(l, n, grant);
      && WellFormed(t)
      && (b.Some? ==>
        && b.value.size == RoundUp(n) && b.value in Live(t.blocks) && b.value !in Live(l.blocks)
        && Live(t.blocks) == Live(l.blocks) + {b.value}
        && (b.value.size >= n <==> n + ALIGN - 1 < WORD)
        && (n + ALIGN - 1 >= WORD ==> b.value.size == 0))
  {
    BootKeeps(l);
    RoundUpOnGrid(n);
    RoundUpExact(n);
    AllocateKeeps(Boot(l), RoundUp(n), grant && RoundUp(n) + HDR < WORD / 2);
  }

  /** malloc fails exactly when no free block has room for the rounded size and the heap does not grow. */
  lemma MallocFails(l: Layout, n: nat, grant: bool)
    ensures MallocLayout(l, n, grant).1.None? <==>
      && (forall b :: b in Boot(l).blocks && b.free ==> b.size < RoundUp(n))
      && !(grant && RoundUp(n) + HDR < WORD / 2)
  {
    hide RoundUp;
    var bs := Boot(l).blocks;
    assert (forall b :: b in bs && b.free ==> b.size < RoundUp(n))
      <==> forall i :: 0 <= i < |bs| ==> !Fits(bs[i], RoundUp(n));
  }

  /** Where malloc puts a block: into the last block if that is free and has room, else into the first
      that is and has, leaving a free block behind it or losing what is too small for one; and behind
      the last block, at the break, only if none has room. */
  lemma MallocPlaces(l: Layout, n: nat, grant: bool)
    ensures var (t, r) := MallocLayout(l, n, grant);
      var bs, m := Boot(l).blocks, RoundUp(n);
      if exists i :: 0 <= i < |bs| && Fits(bs[i], m) then
        && r.Some? && t.brk == Boot(l).brk
        && exists j: nat :: j < |bs| && Fits(bs[j], m) && bs[j].addr == r.value.addr
             && (j < |bs| - 1 ==> !Fits(bs[|bs| - 1], m) && forall i :: 0 <= i < j ==> !Fits(bs[i], m))
             && Cut(bs[j], m, t.blocks, t.lost - Boot(l).lost)
             && forall i :: 0 <= i < |bs| && i != j ==> bs[i] in t.blocks
      else r.Some? ==>
        && t.blocks == bs + [r.value] && r.value == Block(Boot(l).brk, m, false)
        && t.brk == End(r.value) && t.lost == Boot(l).lost
  {
    var bs, m := Boot(l).blocks, RoundUp(n);
    match Pick(bs, m)
    case None =>
    case Some(k) =>
      TakeCuts(Boot(l), k, m);
      hide RoundUp, Boot, Take, Cut, FirstFit;
  }

  /** What realloc of a live block `b` to `n` bytes makes of the live blocks, by what it answers: size 0
      ends the block's life; a block that is large enough stays; any other answer is a new block that
      takes its place; and without an answer all is as it was. */
  ghost predicate Resized(was: set<Block>, now: set<Block>, b: Block, n: nat, answer: Option<Block>) {
    if n == 0 then answer.None? && now == was - {b}
    else match answer
      case None => b.size < n && now == was
      case Some(a) =>
        && a in now && (n + ALIGN - 1 < WORD ==> a.size >= n)
        && if b.size >= n then a == b && now == was else a !in was && now == was - {b} + {a}
  }

  lemma BlocksInOrder(l: Layout)
    requires WellFormed(l)
    ensures InOrder(l.blocks)
  {
  }

  lemma ReallocResizes(l: Layout, k: nat, n: nat, grant: bool)
    requires WellFormed(l) && k < |l.blocks| && !l.blocks[k].free && n < WORD
    ensures var (t, r) := ReallocLayout(l, k, n, grant);
      Resized(Live(l.blocks), Live(t.blocks), l.blocks[k], n, r)
  {
    hide RoundUp, Release, WellFormed;
    var b := l.blocks[k];
    assert b in Live(l.blocks);
    ReleaseKeeps(l, k);
    PayloadExact(l, n, grant);
    var (t, r) := MallocLayout(l, n, grant);
    if 0 < n && b.size < n && r.Some? {
      StillLive(l.blocks, t.blocks, k);
      var j := IndexAt(t.blocks, b.addr);
      assert t.blocks[j] == b by {
        assert InOrder(t.blocks) by { BlocksInOrder(t); }
        var i :| 0 <= i < |t.blocks| && t.blocks[i] == b;
        LiveAddressUnique(t.blocks, t.blocks[j], b);
      }
      ReleaseKeeps(t, j);
      hide Live, Allocate;
    }
  }

  /** On a heap that was never used, malloc of the largest size_t answers with a live block of no
      bytes. */
  lemma LargestRequest(base: nat, grant: bool)
    requires OnGrid(base) && base > 0
    ensures var l := Layout(base, [], base, 0);
      && WellFormed(l) && Legal(l, CallMalloc(WORD - 1, grant)) && Apply(l, CallMalloc(WORD - 1, grant)).Some?
      && MallocLayout(l, WORD - 1, grant).1 == Some(Block(base, 0, false))
      && Block(base, 0, false) in Live(MallocLayout(l, WORD - 1, grant).0.blocks)
  {
    PayloadExact(Layout(base, [], base, 0), WORD - 1, grant);
  }

  ghost predicate LegalStep(l: Layout, c: Call, t: Layout)
    requires WellFormed(l)
  {
    Legal(l, c) && Apply(l, c) == Some(t)
  }

  /** The layouts between the calls of a legal client, as long as none of them stores astray. */
  ghost predicate LegalRun(ls: seq<Layout>, cs: seq<Call>) {
    && |ls| == |cs| + 1
    && WellFormed(ls[0])
    && forall i :: 0 <= i < |cs| && WellFormed(ls[i]) ==> LegalStep(ls[i], cs[i], ls[i + 1])
  }

  lemma ApplyStepKeeps(l: Layout, c: Call, t: Layout)
    requires WellFormed(l) && LegalStep(l, c, t)
    ensures WellFormed(t) && l.lost <= t.lost <= l.lost + 32
  {
    ApplyKeeps(l, c);
  }

  /** After any legal sequence of calls the heap is well formed, every byte taken from the kernel is
      in a block or lost, and at most 32 bytes were lost per call. */
  lemma {:induction false} RunKeeps(ls: seq<Layout>, cs: seq<Call>)
    requires LegalRun(ls, cs)
    ensures forall i :: 0 <= i < |ls| ==> WellFormed(ls[i]) && ls[i].lost <= ls[0].lost + 32 * i
    decreases |cs|
  {
    hide WellFormed, LegalStep;
    if |cs| > 0 {
      var n := |cs| - 1;
      var ps := ls[..n + 1];
      assert forall i :: 0 <= i <= n ==> ps[i] == ls[i];
      assert forall i :: 0 <= i < n ==> cs[..n][i] == cs[i];
      RunKeeps(ps, cs[..n]);
      assert ps[n] == ls[n];
      assert LegalStep(ls[n], cs[n], ls[n + 1]);
      ApplyStepKeeps(ls[n], cs[n], ls[n + 1]);
      assert forall i :: 0 <= i <= n ==> ps[i] == ls[i];
    }
  }

  /** Releasing live blocks one after the other, in the given order. */
  function ReleaseAll(l: Layout, order: seq<nat>): (r: Option<Layout>)
    decreases |order|
  {
    if order == [] then Some(l)
    else if IsLiveAt(l.blocks, order[0]) then ReleaseAll(Release(l, IndexAt(l.blocks, order[0])), order[1..])
    else None
  }

  ghost function LiveAddresses(bs: seq<Block>): set<nat> {
    set b | b in Live(bs) :: b.addr
  }

  lemma NoLiveAddresses(bs: seq<Block>)
    requires forall a :: a !in LiveAddresses(bs)
    ensures Live(bs) == {}
  {
    assert forall b :: b in Live(bs) ==> b.addr in LiveAddresses(bs);
  }

  lemma ReleaseBase(l: Layout, k: nat)
    requires k < |l.blocks|
    ensures Release(l, k).base == l.base
  {
  }

  lemma AddressesMinus(s: set<Block>, b: Block)
    requires b in s && forall x :: x in s && x.addr == b.addr ==> x == b
    ensures (set x | x in s - {b} :: x.addr) == (set x | x in s :: x.addr) - {b.addr}
  {
  }

  lemma ReleasedAddresses(l: Layout, k: nat)
    requires WellFormed(l) && k < |l.blocks| && !l.blocks[k].free
    ensures LiveAddresses(Release(l, k).blocks) == LiveAddresses(l.blocks) - {l.blocks[k].addr}
  {
    ReleaseKeeps(l, k);
    hide Release, NoFreeNeighbours, Aligned, Inside, OnGrid, Footprint;
    forall b | b in Live(l.blocks) && b.addr == l.blocks[k].addr
      ensures b == l.blocks[k]
    {
      LiveAddressUnique(l.blocks, b, l.blocks[k]);
    }
    hide WellFormed, InOrder;
    AddressesMinus(Live(l.blocks), l.blocks[k]);
  }

  lemma {:induction false} ReleaseAllEmpties(l: Layout, order: seq<nat>)
    requires WellFormed(l) && l.blocks != []
    requires forall i, j :: 0 <= i < j < |order| ==> order[i] != order[j]
    requires forall a :: a in order <==> a in LiveAddresses(l.blocks)
    ensures var r := ReleaseAll(l, order);
      r.Some? && WellFormed(r.value) && r.value.blocks != [] && Live(r.value.blocks) == {}
      && r.value.lost == l.lost && r.value.brk == l.brk && r.value.base == l.base
    decreases |order|
  {
    hide WellFormed, Release;
    if order == [] {
      assert Live(l.blocks) == {} by { NoLiveAddresses(l.blocks); }
    } else {
      var a := order[0];
      assert a in LiveAddresses(l.blocks);
      var b :| b in Live(l.blocks) && b.addr == a;
      var i :| 0 <= i < |l.blocks| && l.blocks[i] == b;
      var k := IndexAt(l.blocks, a);
      var t := Release(l, k);
      ReleaseKeeps(l, k);
      ReleasedAddresses(l, k);
      assert t.base == l.base by { ReleaseBase(l, k); }
      forall x
        ensures x in order[1..] <==> x in LiveAddresses(t.blocks)
      {
        assert order == [a] + order[1..];
      }
      ReleaseAllEmpties(t, order[1..]);
    }
  }

  lemma NotBothFree(bs: seq<Block>, i: nat)
    requires NoFreeNeighbours(bs) && i + 1 < |bs|
    ensures !(bs[i].free && bs[i + 1].free)
  {
  }

  /** Freeing every live pointer, in any order, leaves a single free block that spans all the bytes
      ever taken from the kernel but the lost ones. */
  lemma FreeingEverythingCoalesces(l: Layout, order: seq<nat>)
    requires WellFormed(l) && l.blocks != []
    requires forall i, j :: 0 <= i < j < |order| ==> order[i] != order[j]
    requires forall a :: a in order <==> a in LiveAddresses(l.blocks)
    ensures var r := ReleaseAll(l, order);
      r.Some? && r.value.blocks == [Block(l.base, l.brk - l.base - l.lost - HDR, true)]
  {
    hide Aligned, Inside, OnGrid, InOrder, LiveAddresses, ReleaseAll;
    ReleaseAllEmpties(l, order);
    var t := ReleaseAll(l, order).value;
    forall i | 0 <= i < |t.blocks|
      ensures t.blocks[i].free
    {
      assert t.blocks[i] in t.blocks;
      assert t.blocks[i] !in Live(t.blocks);
    }
    hide Live;
    assert t.blocks[0].free;
    if |t.blocks| > 1 {
      NotBothFree(t.blocks, 0);
    }
    assert Footprint(t.blocks) == t.blocks[0].size + HDR + Footprint([]);
  }

  /** While the last block is free and large enough, malloc takes from it. */
  lemma TakesTail(l: Layout, n: nat)
    requires WellFormed(l) && Boot(l).blocks != [] && OnGrid(n) && n + ALIGN - 1 < WORD
    requires Fits(Boot(l).blocks[|Boot(l).blocks| - 1], n)
    ensures MallocLayout(l, n, false).0 == Take(Boot(l), |Boot(l).blocks| - 1, n)
    ensures WellFormed(MallocLayout(l, n, false).0)
  {
    assert RoundUp(n) == n by {
      RoundUpExact(n);
    }
    PayloadExact(l, n, false);
  }

  lemma EmptyWellFormed(base: nat)
    requires OnGrid(base) && base > 0
    ensures WellFormed(Layout(base, [], base, 0))
  {
  }

  /** A legal run of four calls after which the next small malloc splits a block that has a
      successor: the situation in which the source's split leaves a stale back pointer. */
  lemma InteriorSplitIsReachable(base: nat) returns (ls: seq<Layout>, cs: seq<Call>)
    requires OnGrid(base) && base > 0
    ensures LegalRun(ls, cs) && ls[0] == Layout(base, [], base, 0)
    ensures var bs := ls[|cs|].blocks;
      |bs| == 3 && Pick(bs, 8) == Some(0) && Splits(bs[0], 8)
  {
    hide WellFormed, RoundUp, MallocLayout;
    var rest := INITIAL - HDR - (104 + HDR) - (8 + HDR);
    var a, b, c := Block(base, 104, false), Block(base + 136, 8, false), Block(base + 176, rest, false);
    var brk := base + INITIAL;
    var l0 := Layout(base, [], base, 0);
    assert WellFormed(l0) by { EmptyWellFormed(base); }
    var l1 := Layout(base, [a, Block(base + 136, rest + 40, true)], brk, 0);
    TakesTail(l0, 104);
    assert Take(Boot(l0), 0, 104).blocks == l1.blocks;
    var l2 := Layout(base, [a, b, c.(free := true)], brk, 0);
    TakesTail(l1, 8);
    assert Take(l1, 1, 8).blocks == l2.blocks;
    var l3 := Layout(base, [a, b, c], brk, 0);
    TakesTail(l2, rest);
    assert Take(l2, 2, rest).blocks == l3.blocks;
    hide Take, Boot;
    assert IsLiveAt(l3.blocks, base) by { assert l3.blocks[0].addr == base; }
    assert IndexAt(l3.blocks, base) == 0;
    var l4 := Layout(base, [a.(free := true), b, c], brk, 0);
    assert Release(l3, 0).blocks == l4.blocks;
    cs := [CallMalloc(104, false), CallMalloc(8, false), CallMalloc(rest, false), CallFree(base)];
    ls := [l0, l1, l2, l3, l4];
    OrdinaryCallsStay(l0, cs[0]);
    OrdinaryCallsStay(l1, cs[1]);
    OrdinaryCallsStay(l2, cs[2]);
  }
}
