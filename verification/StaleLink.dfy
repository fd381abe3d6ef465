/** What the shipped split can lead to: malloc and free on the block headers alone, following
    whatever links they find.  The heap does not grow here. */
module StaleLink {
  import opened Basics
  import opened AllocLayout
  import opened AllocBytes
  import opened Allocator

  /** The headers by address. */
  datatype Chain = Chain(metas: map<nat, Meta>, head: nat, tail: nat)

  predicate Roomy(h: Chain, a: nat, n: nat) {
    a in h.metas && h.metas[a].free && h.metas[a].size >= n
  }

  /** First fit from `cur` on among the headers not seen yet. */
  function Walk(h: Chain, cur: nat, n: nat): nat
    decreases |h.metas|
  {
    if cur !in h.metas then 0
    else if Roomy(h, cur, n) then cur
    else
      assert |h.metas - {cur}| < |h.metas| by { assert (h.metas - {cur}).Keys == h.metas.Keys - {cur}; }
      Walk(h.(metas := h.metas - {cur}), h.metas[cur].next, n)
  }

  function Choose(h: Chain, n: nat): nat {
    if Roomy(h, h.tail, n) then h.tail else Walk(h, h.head, n)
  }

  /** Behind `n` bytes of block `a` a new free block begins; the old successor is not told. */
  function Split(h: Chain, a: nat, n: nat): Chain
    requires a in h.metas && h.metas[a].size >= n + HDR
  {
    var m := h.metas[a];
    var rest := a + HDR + n;
    h.(metas := h.metas[rest := Meta(m.size - n - HDR, m.next, a, true)][a := Meta(n, rest, m.prev, false)],
       tail := if a == h.tail then rest else h.tail)
  }

  /** malloc of a rounded size; the pointer is 0 when nothing fits. */
  function Malloc(h: Chain, n: nat): (Chain, nat) {
    var a := Choose(h, n);
    if a == 0 || a !in h.metas then (h, 0)
    else
      var m := h.metas[a];
      if m.size != n && m.size >= n + HDR + ALIGN then (Split(h, a, n), a + HDR)
      else (h.(metas := h.metas[a := m.(size := n, free := false)]), a + HDR)
  }

  /** Block `a` takes over block `b`. */
  function Join(h: Chain, a: nat, b: nat): Chain
    requires a in h.metas && b in h.metas
  {
    var next := h.metas[b].next;
    var grown := h.metas[a := h.metas[a].(size := h.metas[a].size + h.metas[b].size + HDR, next := next)];
    h.(metas := if next in grown then grown[next := grown[next].(prev := a)] else grown,
       tail := if b == h.tail then a else h.tail)
  }

  /** The first half of free: joining a free predecessor. */
  function FreeBackward(h: Chain, cur: nat): (r: (Chain, nat))
    requires cur in h.metas
    ensures r.1 in r.0.metas
  {
    var m := h.metas[cur];
    var freed := h.(metas := h.metas[cur := m.(free := true)]);
    if m.prev != 0 && Roomy(freed, m.prev, 0) then (Join(freed, m.prev, cur), m.prev) else (freed, cur)
  }

  function Free(h: Chain, cur: nat): Chain
    requires cur in h.metas
  {
    var next := h.metas[cur].next;
    var (g, at) := FreeBackward(h, cur);
    if next != 0 && Roomy(g, next, 0) then Join(g, at, next) else g
  }

  // ---- while the links are right ----------------------------------------------------------------

  /** The headers are those of the blocks, doubly linked in order. */
  ghost predicate Depicts(h: Chain, bs: seq<Block>) {
    && bs != [] && h.head == bs[0].addr && h.tail == bs[|bs| - 1].addr && 0 !in h.metas
    && forall i: nat :: i < |bs| ==> bs[i].addr in h.metas && h.metas[bs[i].addr] == Header(bs, i)
  }

  lemma HeaderParts(bs: seq<Block>, i: nat)
    requires i < |bs|
    ensures Header(bs, i).size == bs[i].size && Header(bs, i).free == bs[i].free
    ensures Header(bs, i).next == if i + 1 < |bs| then bs[i + 1].addr else 0
    ensures Header(bs, i).prev == if i > 0 then bs[i - 1].addr else 0
  {
  }

  lemma DepictsAt(h: Chain, bs: seq<Block>, i: nat)
    requires Depicts(h, bs) && i < |bs|
    ensures bs[i].addr in h.metas && h.metas[bs[i].addr] == Header(bs, i)
  {
    hide Header;
  }

  lemma {:induction false} WalkAgrees(h: Chain, bs: seq<Block>, i: nat, n: nat)
    requires InOrder(bs) && i < |bs| && 0 !in h.metas
    requires forall j: nat :: i <= j < |bs| ==> bs[j].addr in h.metas && h.metas[bs[j].addr] == Header(bs, j)
    ensures Walk(h, bs[i].addr, n) == match FirstFit(bs[i..], n) case Some(k) => bs[i + k].addr case None => 0
    decreases |bs| - i
  {
    hide InOrder;
    var a := bs[i].addr;
    var rest := h.(metas := h.metas - {a});
    assert bs[i..][1..] == bs[i + 1..];
    if !Fits(bs[i], n) && i + 1 < |bs| {
      forall j: nat | i + 1 <= j < |bs|
        ensures bs[j].addr in rest.metas && rest.metas[bs[j].addr] == Header(bs, j)
      {
        PairInOrder(bs, i, j);
      }
      WalkAgrees(rest, bs, i + 1, n);
    }
  }

  lemma ChooseAgrees(h: Chain, bs: seq<Block>, n: nat)
    requires Depicts(h, bs) && InOrder(bs)
    ensures Choose(h, n) == match Pick(bs, n) case Some(k) => bs[k].addr case None => 0
  {
    hide InOrder, Header;
    assert bs[0..] == bs;
    DepictsAt(h, bs, |bs| - 1);
    HeaderParts(bs, |bs| - 1);
    WalkAgrees(h, bs, 0, n);
  }

  lemma WholeHeader(bs: seq<Block>, k: nat, n: nat, i: nat)
    requires k < |bs| && i < |bs|
    ensures Header(bs[k := Block(bs[k].addr, n, false)], i)
         == if i == k then Header(bs, k).(size := n, free := false) else Header(bs, i)
  {
  }

  lemma WholeAgrees(h: Chain, bs: seq<Block>, k: nat, n: nat)
    requires Depicts(h, bs) && InOrder(bs) && k < |bs|
    ensures var a := bs[k].addr;
      Depicts(h.(metas := h.metas[a := h.metas[a].(size := n, free := false)]), bs[k := Block(a, n, false)])
  {
    hide InOrder, Header;
    var a := bs[k].addr;
    var ts := bs[k := Block(a, n, false)];
    var g := h.(metas := h.metas[a := h.metas[a].(size := n, free := false)]);
    DepictsAt(h, bs, k);
    forall i: nat | i < |ts|
      ensures ts[i].addr in g.metas && g.metas[ts[i].addr] == Header(ts, i)
    {
      DepictsAt(h, bs, i);
      PairInOrder(bs, i, k);
      PairInOrder(bs, k, i);
      WholeHeader(bs, k, n, i);
    }
  }

  /** The header after a split at place `i`: one behind the new block keeps the old back pointer. */
  function SplitHeader(ts: seq<Block>, k: nat, i: nat): Meta
    requires k < |ts| && i < |ts|
  {
    if i == k + 2 then Header(ts, i).(prev := ts[k].addr) else Header(ts, i)
  }

  lemma SplitPlace(l: Layout, k: nat, n: nat, i: nat)
    requires InOrder(l.blocks) && k < |l.blocks| && Fits(l.blocks[k], n) && Splits(l.blocks[k], n)
    requires i <= |l.blocks|
    ensures var bs, ts := l.blocks, Take(l, k, n).blocks;
      var rest := bs[k].addr + HDR + n;
      && |ts| == |bs| + 1
      && (i < k ==> ts[i].addr == bs[i].addr && SplitHeader(ts, k, i) == Header(bs, i))
      && (i == k ==>
            && ts[i].addr == bs[k].addr
            && SplitHeader(ts, k, i) == Header(bs, k).(size := n, next := rest, free := false))
      && (i == k + 1 ==>
            && ts[i].addr == rest
            && SplitHeader(ts, k, i) == Meta(bs[k].size - n - HDR, Header(bs, k).next, bs[k].addr, true))
      && (i > k + 1 ==> ts[i].addr == bs[i - 1].addr && SplitHeader(ts, k, i) == Header(bs, i - 1))
      && (i != k ==> ts[i].addr != bs[k].addr) && (i != k + 1 ==> ts[i].addr != rest)
  {
    hide InOrder;
    var j := if i <= k then i else i - 1;
    PairInOrder(l.blocks, j, k);
    PairInOrder(l.blocks, k, j);
  }

  lemma SplitAgrees(l: Layout, h: Chain, k: nat, n: nat)
    requires Depicts(h, l.blocks) && InOrder(l.blocks) && l.blocks[0].addr > 0
    requires k < |l.blocks| && Fits(l.blocks[k], n) && Splits(l.blocks[k], n)
    ensures l.blocks[k].addr in h.metas && h.metas[l.blocks[k].addr].size == l.blocks[k].size
    ensures var ts := Take(l, k, n).blocks;
      var g := Split(h, l.blocks[k].addr, n);
      && (forall i: nat :: i < |ts| ==> ts[i].addr in g.metas && g.metas[ts[i].addr] == SplitHeader(ts, k, i))
      && g.head == ts[0].addr && g.tail == ts[|ts| - 1].addr && 0 !in g.metas
  {
    hide InOrder, Header, SplitHeader;
    var bs, ts := l.blocks, Take(l, k, n).blocks;
    DepictsAt(h, bs, k);
    HeaderParts(bs, k);
    var g := Split(h, bs[k].addr, n);
    forall i: nat | i < |ts|
      ensures ts[i].addr in g.metas && g.metas[ts[i].addr] == SplitHeader(ts, k, i)
    {
      SplitPlace(l, k, n, i);
      if i != k + 1 {
        DepictsAt(h, bs, if i <= k then i else i - 1);
      }
    }
    SplitPlace(l, k, n, 0);
    SplitPlace(l, k, n, |bs|);
    PairInOrder(bs, k, |bs| - 1);
  }

  /** A split leaves the heap linked exactly when the block is the last. */
  lemma SplitLeaves(l: Layout, h: Chain, k: nat, n: nat)
    requires Depicts(h, l.blocks) && InOrder(l.blocks) && l.blocks[0].addr > 0
    requires k < |l.blocks| && Fits(l.blocks[k], n) && Splits(l.blocks[k], n)
    ensures l.blocks[k].addr in h.metas && h.metas[l.blocks[k].addr].size == l.blocks[k].size
    ensures Depicts(Split(h, l.blocks[k].addr, n), Take(l, k, n).blocks) <==> k + 1 == |l.blocks|
  {
    hide InOrder, Header, Split;
    DepictsAt(h, l.blocks, k);
    HeaderParts(l.blocks, k);
    SplitAgrees(l, h, k, n);
    var ts := Take(l, k, n).blocks;
    if k + 1 < |l.blocks| {
      HeaderParts(ts, k + 2);
      assert SplitHeader(ts, k, k + 2) != Header(ts, k + 2);
    }
  }

  /** What malloc leaves of the block it has chosen. */
  lemma TakeAgrees(l: Layout, h: Chain, k: nat, n: nat)
    requires Depicts(h, l.blocks) && InOrder(l.blocks) && l.blocks[0].addr > 0
    requires k < |l.blocks| && Fits(l.blocks[k], n)
    ensures var a := l.blocks[k].addr;
      && 0 < a && a in h.metas && h.metas[a].size == l.blocks[k].size
      && (Splits(l.blocks[k], n) ==>
            (Depicts(Split(h, a, n), Take(l, k, n).blocks) <==> k + 1 == |l.blocks|))
      && (!Splits(l.blocks[k], n) ==>
            Depicts(h.(metas := h.metas[a := h.metas[a].(size := n, free := false)]), Take(l, k, n).blocks))
  {
    hide InOrder, Header, Split;
    PairInOrder(l.blocks, 0, k);
    DepictsAt(h, l.blocks, k);
    HeaderParts(l.blocks, k);
    if Splits(l.blocks[k], n) {
      SplitLeaves(l, h, k, n);
    } else {
      WholeAgrees(h, l.blocks, k, n);
    }
  }

  /** On a linked heap malloc takes the block the specification takes, and leaves the heap linked exactly
      when it splits no block but the last. */
  lemma MallocAgrees(l: Layout, h: Chain, n: nat)
    requires Depicts(h, l.blocks) && InOrder(l.blocks) && l.blocks[0].addr > 0
    ensures var (t, b) := Allocate(l, n, false);
      var (g, p) := Malloc(h, n);
      && p == (if b.Some? then Payload(b.value) else 0)
      && (b.None? ==> g == h)
      && (Depicts(g, t.blocks) <==> !SplitsInterior(l.blocks, n))
  {
    hide InOrder, Choose, Split, Header, Take;
    ChooseAgrees(h, l.blocks, n);
    match Pick(l.blocks, n) {
      case None =>
      case Some(k) =>
        TakeAgrees(l, h, k, n);
    }
  }

  lemma MergedAddr(bs: seq<Block>, i: nat, j: nat)
    requires i + 1 < |bs| && j + 1 < |bs|
    ensures |MergeAt(bs, i)| == |bs| - 1
    ensures MergeAt(bs, i)[j].addr == bs[if j <= i then j else j + 1].addr
  {
  }

  lemma JoinPlace(h: Chain, bs: seq<Block>, i: nat, j: nat)
    requires Depicts(h, bs) && InOrder(bs) && 0 !in h.metas && i + 1 < |bs| && j + 1 < |bs|
    requires bs[i].addr in h.metas && bs[i + 1].addr in h.metas
    ensures var g, ms := Join(h, bs[i].addr, bs[i + 1].addr), MergeAt(bs, i);
      |ms| == |bs| - 1 && ms[j].addr in g.metas && g.metas[ms[j].addr] == Header(ms, j)
  {
    hide InOrder, Header, Depicts, MergeAt;
    MergeHeader(bs, i, j);
    MergedAddr(bs, i, j);
    var p := if j <= i then j else j + 1;
    DepictsAt(h, bs, p);
    DepictsAt(h, bs, i);
    DepictsAt(h, bs, i + 1);
    HeaderParts(bs, i);
    HeaderParts(bs, i + 1);
    PairInOrder(bs, p, i);
    PairInOrder(bs, i, p);
    if i + 2 < |bs| {
      DepictsAt(h, bs, i + 2);
      PairInOrder(bs, i, i + 2);
      PairInOrder(bs, p, i + 2);
      PairInOrder(bs, i + 2, p);
    }
  }

  /** Joining neighbours is the specification's merge. */
  lemma JoinAgrees(h: Chain, bs: seq<Block>, i: nat)
    requires Depicts(h, bs) && InOrder(bs) && bs[0].addr > 0 && i + 1 < |bs|
    ensures Depicts(Join(h, bs[i].addr, bs[i + 1].addr), MergeAt(bs, i))
  {
    hide InOrder, Header;
    DepictsAt(h, bs, i);
    DepictsAt(h, bs, i + 1);
    HeaderParts(bs, i + 1);
    var g, ms := Join(h, bs[i].addr, bs[i + 1].addr), MergeAt(bs, i);
    forall j: nat | j < |ms|
      ensures ms[j].addr in g.metas && g.metas[ms[j].addr] == Header(ms, j)
    {
      JoinPlace(h, bs, i, j);
    }
    PairInOrder(bs, i + 1, |bs| - 1);
  }

  lemma FreedHeader(bs: seq<Block>, k: nat, i: nat)
    requires k < |bs| && i < |bs|
    ensures Header(bs[k := bs[k].(free := true)], i)
         == if i == k then Header(bs, k).(free := true) else Header(bs, i)
  {
  }

  lemma FreedAgrees(h: Chain, bs: seq<Block>, k: nat)
    requires Depicts(h, bs) && InOrder(bs) && k < |bs|
    ensures var a := bs[k].addr;
      a in h.metas
      && Depicts(h.(metas := h.metas[a := h.metas[a].(free := true)]), bs[k := bs[k].(free := true)])
  {
    hide InOrder, Header;
    var a := bs[k].addr;
    DepictsAt(h, bs, k);
    var fs := bs[k := bs[k].(free := true)];
    var g := h.(metas := h.metas[a := h.metas[a].(free := true)]);
    forall i: nat | i < |fs|
      ensures fs[i].addr in g.metas && g.metas[fs[i].addr] == Header(fs, i)
    {
      DepictsAt(h, bs, i);
      PairInOrder(bs, i, k);
      PairInOrder(bs, k, i);
      FreedHeader(bs, k, i);
    }
  }

  lemma BackwardAgrees(l: Layout, h: Chain, k: nat)
    requires WellFormed(l) && k < |l.blocks| && !l.blocks[k].free && Depicts(h, l.blocks)
    ensures l.blocks[k].addr in h.metas
    ensures var fs := l.blocks[k := l.blocks[k].(free := true)];
      var (bs, i) := MergeBack(fs, k);
      var (g, at) := FreeBackward(h, l.blocks[k].addr);
      && Depicts(g, bs) && InOrder(bs) && bs[0].addr > 0 && at == bs[i].addr
      && Header(bs, i).next == h.metas[l.blocks[k].addr].next
  {
    hide InOrder, Header, Footprint, Aligned, Inside, NoFreeNeighbours, OnGrid, FreePairsOnlyAt, Join, MergeAt, Live;
    var fs := l.blocks[k := l.blocks[k].(free := true)];
    var a := l.blocks[k].addr;
    FreedKeeps(l, k);
    FreedAgrees(h, l.blocks, k);
    BlockBounds(l, 0);
    DepictsAt(h, l.blocks, k);
    HeaderParts(l.blocks, k);
    BackHeader(fs, k);
    FreedHeader(l.blocks, k, k);
    var freed := h.(metas := h.metas[a := h.metas[a].(free := true)]);
    if k > 0 {
      BlockBounds(l, k - 1);
      DepictsAt(freed, fs, k - 1);
      HeaderParts(fs, k - 1);
      if fs[k - 1].free {
        JoinAgrees(freed, fs, k - 1);
        MergeAtKeeps(fs, k - 1, l.base, l.brk);
        MergedAddr(fs, k - 1, 0);
        MergedAddr(fs, k - 1, k - 1);
      }
    }
  }

  /** On a linked heap free is the specification's release, and leaves the heap linked. */
  lemma FreeAgrees(l: Layout, h: Chain, k: nat)
    requires WellFormed(l) && k < |l.blocks| && !l.blocks[k].free && Depicts(h, l.blocks)
    ensures l.blocks[k].addr in h.metas && Depicts(Free(h, l.blocks[k].addr), Release(l, k).blocks)
  {
    hide WellFormed, InOrder, Header, Join, MergeAt, MergeBack, FreeBackward;
    BackwardAgrees(l, h, k);
    var fs := l.blocks[k := l.blocks[k].(free := true)];
    var (bs, i) := MergeBack(fs, k);
    var (g, at) := FreeBackward(h, l.blocks[k].addr);
    HeaderParts(bs, i);
    if i + 1 < |bs| {
      PairInOrder(bs, 0, i + 1);
      DepictsAt(g, bs, i + 1);
      HeaderParts(bs, i + 1);
      if bs[i + 1].free {
        JoinAgrees(g, bs, i);
      }
    }
  }

  // ---- a client ---------------------------------------------------------------------------------

  /** The pointers a client holds, with the sizes it asked for. */
  datatype Client = Client(heap: Chain, live: map<nat, nat>)

  datatype Op = Get(size: nat) | Put(ptr: nat)

  predicate Allowed(c: Client, op: Op) {
    match op
    case Get(n) => OnGrid(n) && n < INITIAL
    case Put(p) => p in c.live
  }

  function Serve(c: Client, op: Op): Client {
    match op
    case Get(n) =>
      var (h, p) := Malloc(c.heap, n);
      Client(h, if p == 0 then c.live else c.live[p := n])
    case Put(p) =>
      if p >= HDR && p - HDR in c.heap.metas then Client(Free(c.heap, p - HDR), c.live - {p}) else c
  }

  /** The heap as the first call sets it up, and a client that holds nothing yet. */
  function Fresh(base: nat): Client {
    Client(Chain(map[base := Meta(INITIAL - HDR, 0, 0, true)], base, base), map[])
  }

  /** It is the specification's heap after its first call. */
  lemma FreshAgrees(base: nat)
    requires base > 0
    ensures Depicts(Fresh(base).heap, Boot(Layout(base, [], base, 0)).blocks)
  {
  }

  ghost predicate Goes(c: Client, op: Op, t: Client) {
    Allowed(c, op) && t == Serve(c, op)
  }

  /** What a client goes through that frees only pointers it holds. */
  ghost predicate Served(cs: seq<Client>, ops: seq<Op>) {
    && |cs| == |ops| + 1
    && forall i :: 0 <= i < |ops| ==> Goes(cs[i], ops[i], cs[i + 1])
  }

  /** No two pointers a client holds lead to the same byte. */
  ghost predicate Apart(live: map<nat, nat>) {
    forall p, q :: p in live && q in live && p < q ==> p + live[p] <= q
  }

  // ---- nine calls -------------------------------------------------------------------------------

  const REST: nat := INITIAL - HDR - (104 + HDR) - (8 + HDR)

  /** Block B of 8 bytes behind 104 bytes at the base, and block C over all the rest. */
  function B(base: nat): nat { base + 104 + HDR }

  function C(base: nat): nat { base + 176 }

  function Stage1(base: nat): Client {
    Client(Chain(map[base := Meta(104, B(base), 0, false), B(base) := Meta(REST + 40, 0, base, true)], base, B(base)),
           map[base + HDR := 104])
  }

  function Stage2(base: nat): Client {
    Client(Chain(map[base := Meta(104, B(base), 0, false), B(base) := Meta(8, C(base), base, false),
                     C(base) := Meta(REST, 0, B(base), true)], base, C(base)),
           map[base + HDR := 104, B(base) + HDR := 8])
  }

  function Stage3(base: nat): Client {
    Client(Chain(map[base := Meta(104, B(base), 0, false), B(base) := Meta(8, C(base), base, false),
                     C(base) := Meta(REST, 0, B(base), false)], base, C(base)),
           map[base + HDR := 104, B(base) + HDR := 8, C(base) + HDR := REST])
  }

  function Stage4(base: nat): Client {
    Client(Chain(map[base := Meta(104, B(base), 0, true), B(base) := Meta(8, C(base), base, false),
                     C(base) := Meta(REST, 0, B(base), false)], base, C(base)),
           map[B(base) + HDR := 8, C(base) + HDR := REST])
  }

  lemma Fill(base: nat)
    requires base > 0
    ensures Goes(Fresh(base), Get(104), Stage1(base))
    ensures Goes(Stage1(base), Get(8), Stage2(base))
  {
  }

  lemma FillUp(base: nat)
    requires base > 0
    ensures Goes(Stage2(base), Get(REST), Stage3(base))
  {
  }

  lemma FreeAlone(h: Chain, a: nat)
    requires a in h.metas
    requires var m := h.metas[a];
      m.prev != a && m.next != a && !(m.prev != 0 && Roomy(h, m.prev, 0)) && !(m.next != 0 && Roomy(h, m.next, 0))
    ensures Free(h, a) == h.(metas := h.metas[a := h.metas[a].(free := true)])
  {
  }

  lemma FreeFirst(base: nat)
    requires base > 0
    ensures Goes(Stage3(base), Put(base + HDR), Stage4(base))
  {
    var c := Stage3(base);
    FreeAlone(c.heap, base);
    hide Free, Malloc;
    assert c.live - {base + HDR} == Stage4(base).live;
  }

  function R(base: nat): nat { base + 8 + HDR }

  /** R, split off the freed first block, is not the predecessor B points back to. */
  function Stage5(base: nat): Client {
    Client(Chain(map[base := Meta(8, R(base), 0, false), R(base) := Meta(64, B(base), base, true),
                     B(base) := Meta(8, C(base), base, false), C(base) := Meta(REST, 0, B(base), false)],
                 base, C(base)),
           map[base + HDR := 8, B(base) + HDR := 8, C(base) + HDR := REST])
  }

  function Stage6(base: nat): Client {
    Client(Chain(map[base := Meta(8, R(base), 0, false), R(base) := Meta(64, B(base), base, false),
                     B(base) := Meta(8, C(base), base, false), C(base) := Meta(REST, 0, B(base), false)],
                 base, C(base)),
           map[base + HDR := 8, R(base) + HDR := 64, B(base) + HDR := 8, C(base) + HDR := REST])
  }

  function Stage7(base: nat): Client {
    Client(Chain(map[base := Meta(8, R(base), 0, true), R(base) := Meta(64, B(base), base, false),
                     B(base) := Meta(8, C(base), base, false), C(base) := Meta(REST, 0, B(base), false)],
                 base, C(base)),
           map[R(base) + HDR := 64, B(base) + HDR := 8, C(base) + HDR := REST])
  }

  /** The first block has taken over B and is linked past the live block R. */
  function Stage8(base: nat): Client {
    Client(Chain(map[base := Meta(48, C(base), 0, true), R(base) := Meta(64, B(base), base, false),
                     B(base) := Meta(8, C(base), base, true), C(base) := Meta(REST, 0, base, false)], base, C(base)),
           map[R(base) + HDR := 64, C(base) + HDR := REST])
  }

  function Stage9(base: nat): Client {
    Client(Chain(map[base := Meta(48, C(base), 0, false), R(base) := Meta(64, B(base), base, false),
                     B(base) := Meta(8, C(base), base, true), C(base) := Meta(REST, 0, base, false)], base, C(base)),
           map[base + HDR := 48, R(base) + HDR := 64, C(base) + HDR := REST])
  }

  lemma SplitFirst(base: nat)
    requires base > 0
    ensures Goes(Stage4(base), Get(8), Stage5(base))
  {
    assert Choose(Stage4(base).heap, 8) == base;
    hide Choose;
  }

  lemma TakeRemainder(base: nat)
    requires base > 0
    ensures Goes(Stage5(base), Get(64), Stage6(base))
  {
    var h := Stage5(base).heap;
    assert Walk(h.(metas := h.metas - {base}), R(base), 64) == R(base);
    assert Choose(h, 64) == R(base);
  }

  lemma FreeFirstAgain(base: nat)
    requires base > 0
    ensures Goes(Stage6(base), Put(base + HDR), Stage7(base))
  {
    var c := Stage6(base);
    FreeAlone(c.heap, base);
    hide Free, Malloc;
    assert c.live - {base + HDR} == Stage7(base).live;
  }

  lemma FreeBack(h: Chain, a: nat)
    requires a in h.metas
    requires var m := h.metas[a];
      m.prev != 0 && m.prev != a && Roomy(h, m.prev, 0) && m.next != a && m.next != m.prev
      && m.next in h.metas && !h.metas[m.next].free
    ensures Free(h, a) == Join(h.(metas := h.metas[a := h.metas[a].(free := true)]), h.metas[a].prev, a)
  {
  }

  lemma MergeTooFar(base: nat)
    requires base > 0
    ensures Goes(Stage7(base), Put(B(base) + HDR), Stage8(base))
  {
    var c := Stage7(base);
    FreeBack(c.heap, B(base));
    hide Free, Malloc;
    assert c.live - {B(base) + HDR} == Stage8(base).live;
  }

  lemma TakeMerged(base: nat)
    requires base > 0
    ensures Goes(Stage8(base), Get(48), Stage9(base))
  {
    assert Choose(Stage8(base).heap, 48) == base;
    hide Choose;
  }

  lemma Overlap(base: nat)
    ensures !Apart(Stage9(base).live)
  {
    var p, q := base + HDR, R(base) + HDR;
    assert p in Stage9(base).live && q in Stage9(base).live && p < q < p + Stage9(base).live[p];
  }

  /** A client that frees only what it holds ends up with two live pointers into the same bytes: the
      stale back pointer makes a merge pass over a live block, and its bytes are handed out again. */
  lemma BytesHandedOutTwice(base: nat)
    requires base > 0
    ensures exists cs: seq<Client>, ops: seq<Op> ::
      Served(cs, ops) && cs[0] == Fresh(base) && !Apart(cs[|ops|].live)
  {
    hide Goes, Apart, Stage1, Stage2, Stage3, Stage4, Stage5, Stage6, Stage7, Stage8, Stage9, Fresh;
    Fill(base);
    FillUp(base);
    FreeFirst(base);
    SplitFirst(base);
    TakeRemainder(base);
    FreeFirstAgain(base);
    MergeTooFar(base);
    TakeMerged(base);
    var ops := [Get(104), Get(8), Get(REST), Put(base + HDR), Get(8), Get(64), Put(base + HDR),
                Put(B(base) + HDR), Get(48)];
    var cs := [Fresh(base), Stage1(base), Stage2(base), Stage3(base), Stage4(base), Stage5(base), Stage6(base),
               Stage7(base), Stage8(base), Stage9(base)];
    Overlap(base);
    assert Served(cs, ops);
  }
}
