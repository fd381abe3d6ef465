/** What the MMU keeps true: the TLB mirrors the walk of the current process, and memory and swap hold
    every byte the processes have fixed. */
module MmuInvariant {
  import opened Basics
  import opened PageTables
  import opened FlatMemory
  import opened PageRelease

  /** One contiguous range of addresses a process may use. */
  datatype Segment = Segment(start: nat, end: nat)

  predicate InSegments(segments: seq<Segment>, a: nat) {
    exists i: nat :: i < |segments| && segments[i].start <= a < segments[i].end
  }

  /** The segments every process starts with: stack, mmap, heap, bss, data, text, testing. */
  const FIRST_SEGMENTS: seq<Segment> := [
    Segment(0xBFFFE000, 0xC07FE000), Segment(0xC07FE000, 0xC07FE000), Segment(0x08072000, 0x08072000),
    Segment(0x0805A000, 0x08072000), Segment(0x08052000, 0x0805A000), Segment(0x08048000, 0x08052000),
    Segment(PAGE_SIZE, 3 * PAGE_SIZE)
  ]

  /** A new process may use its two testing pages, its program image and its stack, and nothing else. */
  lemma FirstSegmentsCover(a: nat)
    ensures InSegments(FIRST_SEGMENTS, a) <==>
      PAGE_SIZE <= a < 3 * PAGE_SIZE || 0x08048000 <= a < 0x08072000 || 0xBFFFE000 <= a < 0xC07FE000
  {
    assert FIRST_SEGMENTS[0] == Segment(0xBFFFE000, 0xC07FE000);
    assert FIRST_SEGMENTS[3] == Segment(0x0805A000, 0x08072000);
    assert FIRST_SEGMENTS[4] == Segment(0x08052000, 0x0805A000);
    assert FIRST_SEGMENTS[5] == Segment(0x08048000, 0x08052000);
    assert FIRST_SEGMENTS[6] == Segment(PAGE_SIZE, 3 * PAGE_SIZE);
  }

  // ---- the kernel -------------------------------------------------------------------------------

  /** The kernel's answer to a request for a frame: whom it evicts first, the frame, and the bytes
      that happen to be in it. */
  datatype Grant = Grant(victim: Option<PteRef>, frame: Frame, stale: Page)

  predicate Evictable(m: Memory, r: PteRef) {
    HasPte(m, r) && Pte(m, r).present && Pte(m, r).base in m.pageMem
  }

  function AfterVictim(m: Memory, g: Grant): Memory
    requires g.victim.Some? ==> Evictable(m, g.victim.value)
  {
    if g.victim.Some? then Evict(m, g.victim.value) else m
  }

  ghost predicate LegalGrant(m: Memory, g: Grant) {
    && (g.victim.Some? ==> Evictable(m, g.victim.value))
    && FreeFrame(AfterVictim(m, g), g.frame)
  }

  /** A kernel that only evicts present pages and only hands out frames not in use. */
  ghost predicate Honest(kernel: Memory -> Grant) {
    forall m: Memory :: Good(m) ==> LegalGrant(m, kernel(m))
  }

  // ---- what every step preserves ----------------------------------------------------------------

  /** Nobody's walk or page is lost. */
  ghost predicate Preserves(m: Memory, n: Memory) {
    && (forall p: Pid :: HasDir(m, p) ==> HasDir(n, p))
    && (forall p: Pid, v: Vpn :: HasDir(m, p) && Walk(m, p, v).Some? ==> Walk(n, p, v) == Walk(m, p, v))
    && (forall p: Pid, v: Vpn :: HasDir(m, p) && Content(m, p, v).Some? ==> Content(n, p, v) == Content(m, p, v))
  }

  lemma PreservesThrough(a: Memory, b: Memory, c: Memory)
    requires Preserves(a, b) && Preserves(b, c)
    ensures Preserves(a, c)
  {
    hide HasDir, Walk, Content;
  }

  /** The walk of a live process ends at an entry of an existing table. */
  lemma WalkLands(m: Memory, p: Pid, v: Vpn)
    requires Good(m) && HasDir(m, p) && Walk(m, p, v).Some?
    ensures HasPte(m, Walk(m, p, v).value)
  {
    hide DirsGood, PagesGood;
  }

  lemma WalksLand(m: Memory)
    requires Good(m)
    ensures forall p: Pid, v: Vpn :: HasDir(m, p) && Walk(m, p, v).Some? ==> HasPte(m, Walk(m, p, v).value)
  {
    hide Good;
    forall p: Pid, v: Vpn | HasDir(m, p) && Walk(m, p, v).Some?
      ensures HasPte(m, Walk(m, p, v).value)
    {
      WalkLands(m, p, v);
    }
  }

  /** If the present directory entries stay and the bytes behind every entry stay, nothing is lost. */
  lemma GrowthPreserves(m: Memory, n: Memory)
    requires Good(m)
    requires forall p: Pid :: HasDir(m, p) ==> HasDir(n, p)
    requires forall p: Pid, j: nat :: HasDir(m, p) && j < ENTRIES && Pde(m, p, j).present ==>
      Pde(n, p, j) == Pde(m, p, j)
    requires forall s: PteRef :: HasPte(m, s) && Behind(m, s).Some? ==> Behind(n, s) == Behind(m, s)
    ensures Preserves(m, n)
  {
    WalksLand(m);
    hide Good, HasPte, Behind, Pde, HasDir;
    forall p: Pid, v: Vpn | HasDir(m, p) && Walk(m, p, v).Some?
      ensures Walk(n, p, v) == Walk(m, p, v)
    {
    }
  }

  /** If the directories stay and the bytes behind every entry stay, nothing is lost. */
  lemma EntriesPreserve(m: Memory, n: Memory)
    requires Good(m) && n.dirs == m.dirs && n.dirMem == m.dirMem
    requires forall s: PteRef :: HasPte(m, s) && Behind(m, s).Some? ==> Behind(n, s) == Behind(m, s)
    ensures Preserves(m, n)
  {
    GrowthPreserves(m, n);
  }

  lemma AddTablePreserves(m: Memory, pid: Pid, i: nat, f: Frame)
    requires Good(m) && HasDir(m, pid) && i < ENTRIES && !Pde(m, pid, i).present && FreeFrame(m, f)
    ensures Preserves(m, AddTable(m, pid, i, f))
  {
    hide Good, HasPte, Behind, Pde, HasDir, AddTable, FreeFrame, Preserves;
    AddTableKeeps(m, pid, i, f);
    GrowthPreserves(m, AddTable(m, pid, i, f));
  }

  lemma AddDirBehind(m: Memory, pid: Pid, f: Frame)
    ensures forall s: PteRef :: Behind(AddDir(m, pid, f), s) == Behind(m, s)
  {
  }

  lemma AddDirPreserves(m: Memory, pid: Pid, f: Frame)
    requires Good(m) && pid !in m.dirs && FreeFrame(m, f)
    ensures Preserves(m, AddDir(m, pid, f))
  {
    hide Good, HasPte, Behind, Pde, HasDir, AddDir, FreeFrame, Preserves;
    AddDirKeeps(m, pid, f);
    AddDirBehind(m, pid, f);
    GrowthPreserves(m, AddDir(m, pid, f));
  }

  /** Every TLB entry is what the walk would find. */
  ghost predicate TlbGood(m: Memory, tlb: map<Vpn, PteRef>, cur: Pid) {
    forall v: Vpn :: v in tlb ==> HasDir(m, cur) && Walk(m, cur, v) == Some(tlb[v])
  }

  lemma TlbStaysGood(m: Memory, n: Memory, tlb: map<Vpn, PteRef>, cur: Pid)
    requires TlbGood(m, tlb, cur) && Preserves(m, n)
    ensures TlbGood(n, tlb, cur)
  {
    hide HasDir, Walk, Content;
  }

  /** What the history fixed at byte `x` of page `v`. */
  function Fixed(h: seq<Event>, p: Pid, v: Vpn, x: nat): Option<Byte> {
    Known(h, p, v * PAGE_SIZE + x)
  }

  predicate HoldsByte(m: Memory, p: Pid, v: Vpn, x: nat, b: Byte) {
    x < PAGE_SIZE && HasDir(m, p) && Content(m, p, v).Some? && Content(m, p, v).value[x] == b
  }

  /** Memory and swap hold every byte the history has fixed. */
  ghost predicate Faithful(m: Memory, h: seq<Event>) {
    forall p: Pid, v: Vpn, x: nat :: x < PAGE_SIZE && Fixed(h, p, v, x).Some? ==>
      HoldsByte(m, p, v, x, Fixed(h, p, v, x).value)
  }

  lemma StaysFaithful(m: Memory, n: Memory, h: seq<Event>)
    requires Faithful(m, h) && Preserves(m, n)
    ensures Faithful(n, h)
  {
    hide Fixed, HasDir, Content;
  }

  // ---- reads, writes and processes that come and go ----------------------------------------------

  predicate FixedBy(h: seq<Event>, e: Event, p: Pid, v: Vpn, x: nat) {
    Fixed(h + [e], p, v, x) ==
    if Covers(e, p, v * PAGE_SIZE + x) then Some(e.data[v * PAGE_SIZE + x - e.addr])
    else if (e.Added? || e.Removed?) && e.pid == p then None
    else Fixed(h, p, v, x)
  }

  lemma FixedMore(h: seq<Event>, e: Event)
    ensures forall p: Pid, v: Vpn, x: nat {:trigger Fixed(h + [e], p, v, x)} :: FixedBy(h, e, p, v, x)
  {
    forall p: Pid, v: Vpn, x: nat
      ensures FixedBy(h, e, p, v, x)
    {
      KnownMore(h, e, p, v * PAGE_SIZE + x);
    }
  }

  /** An access within page `v` covers bytes of that page only. */
  lemma CoversOnePage(v: Vpn, off: nat, n: nat, w: Vpn, x: nat)
    requires off + n <= PAGE_SIZE && x < PAGE_SIZE
    ensures v * PAGE_SIZE + off <= w * PAGE_SIZE + x < v * PAGE_SIZE + off + n <==> w == v && off <= x < off + n
  {
  }

  /** A read repeats what the history fixed, and fixes what it read. */
  lemma ReadFaithful(m: Memory, h: seq<Event>, p: Pid, v: Vpn, off: nat, data: seq<Byte>)
    requires Faithful(m, h) && HasDir(m, p) && Content(m, p, v).Some? && off + |data| <= PAGE_SIZE
    requires data == Content(m, p, v).value[off..off + |data|]
    ensures Agrees(h, p, v * PAGE_SIZE + off, data)
    ensures Faithful(m, h + [Read(p, v * PAGE_SIZE + off, data)])
  {
    var addr := v * PAGE_SIZE + off;
    var e := Read(p, addr, data);
    forall a: nat | addr <= a < addr + |data| && Known(h, p, a).Some?
      ensures data[a - addr] == Known(h, p, a).value
    {
      var x := a - v * PAGE_SIZE;
      assert Fixed(h, p, v, x).Some?;
      assert HoldsByte(m, p, v, x, Fixed(h, p, v, x).value);
    }
    FixedMore(h, e);
    hide Fixed, HasDir, Content;
    forall q: Pid, w: Vpn, x: nat | x < PAGE_SIZE && Fixed(h + [e], q, w, x).Some?
      ensures HoldsByte(m, q, w, x, Fixed(h + [e], q, w, x).value)
    {
      CoversOnePage(v, off, |data|, w, x);
    }
  }

  lemma StoreContent(m: Memory, p: Pid, v: Vpn, off: nat, data: seq<Byte>)
    requires Good(m) && HasDir(m, p) && Walk(m, p, v).Some? && Evictable(m, Walk(m, p, v).value)
    requires off + |data| <= PAGE_SIZE
    ensures var r := Walk(m, p, v).value;
      var n := Store(m, r, off, data);
      && Good(n)
      && (forall q: Pid :: HasDir(n, q) <==> HasDir(m, q))
      && (forall q: Pid, w: Vpn :: HasDir(m, q) ==> Walk(n, q, w) == Walk(m, q, w))
      && (forall q: Pid, w: Vpn :: HasDir(m, q) && !(q == p && w == v) ==> Content(n, q, w) == Content(m, q, w))
      && Content(m, p, v).Some? && Content(n, p, v) == Some(Splice(Content(m, p, v).value, off, data))
  {
    var r := Walk(m, p, v).value;
    var n := Store(m, r, off, data);
    StoreKeeps(m, r, off, data);
    WalksLand(m);
    assert forall q: Pid :: HasDir(n, q) <==> HasDir(m, q);
    assert forall q: Pid, w: Vpn :: HasDir(m, q) ==> Walk(n, q, w) == Walk(m, q, w);
    hide Good, HasPte, Behind, Pde, HasDir, Walk, Splice, Store;
    forall q: Pid, w: Vpn | HasDir(m, q) && !(q == p && w == v)
      ensures Content(n, q, w) == Content(m, q, w)
    {
      if Walk(m, q, w) == Walk(m, p, v) {
        WalksApart(m, p, v, q, w);
      }
    }
  }

  /** A write changes the bytes it names, for the process that made it, and no other byte. */
  lemma WriteFaithful(m: Memory, n: Memory, h: seq<Event>, p: Pid, v: Vpn, off: nat, data: seq<Byte>)
    requires Faithful(m, h) && off + |data| <= PAGE_SIZE
    requires forall q: Pid :: HasDir(n, q) <==> HasDir(m, q)
    requires forall q: Pid, w: Vpn :: HasDir(m, q) && !(q == p && w == v) ==> Content(n, q, w) == Content(m, q, w)
    requires HasDir(m, p) && Content(m, p, v).Some?
    requires Content(n, p, v) == Some(Splice(Content(m, p, v).value, off, data))
    ensures Faithful(n, h + [Wrote(p, v * PAGE_SIZE + off, data)])
  {
    var e := Wrote(p, v * PAGE_SIZE + off, data);
    FixedMore(h, e);
    hide Fixed, HasDir, Content, Splice;
    forall q: Pid, w: Vpn, x: nat | x < PAGE_SIZE && Fixed(h + [e], q, w, x).Some?
      ensures HoldsByte(n, q, w, x, Fixed(h + [e], q, w, x).value)
    {
      CoversOnePage(v, off, |data|, w, x);
      if !Covers(e, q, w * PAGE_SIZE + x) {
        assert HoldsByte(m, q, w, x, Fixed(h, q, w, x).value);
      }
    }
  }

  /** The others lose nothing when `pid` comes or goes. */
  lemma OthersFaithful(m: Memory, n: Memory, h: seq<Event>, e: Event)
    requires Faithful(m, h) && (e.Added? || e.Removed?)
    requires forall q: Pid :: HasDir(m, q) && q != e.pid ==> HasDir(n, q)
    requires forall q: Pid, w: Vpn :: HasDir(m, q) && q != e.pid && Content(m, q, w).Some? ==>
      Content(n, q, w) == Content(m, q, w)
    ensures Faithful(n, h + [e])
  {
    FixedMore(h, e);
    hide Fixed, HasDir, Content;
    forall q: Pid, w: Vpn, x: nat | x < PAGE_SIZE && Fixed(h + [e], q, w, x).Some?
      ensures HoldsByte(n, q, w, x, Fixed(h + [e], q, w, x).value)
    {
      assert HoldsByte(m, q, w, x, Fixed(h, q, w, x).value);
    }
  }

  lemma WalkOwner(m: Memory, p: Pid, v: Vpn)
    requires Good(m) && HasDir(m, p) && Walk(m, p, v).Some?
    ensures Walk(m, p, v).value.table in m.tableOwner && m.tableOwner[Walk(m, p, v).value.table].0 == p
  {
    hide DirsGood, PagesGood;
  }

  /** Removing a process takes nothing from the others. */
  lemma WithoutOthers(m: Memory, pid: Pid)
    requires Good(m) && pid in m.dirs
    ensures forall q: Pid :: HasDir(m, q) && q != pid ==> HasDir(Without(m, pid), q)
    ensures forall q: Pid, v: Vpn :: HasDir(m, q) && q != pid && Walk(m, q, v).Some? ==>
      Walk(Without(m, pid), q, v) == Walk(m, q, v)
    ensures forall q: Pid, v: Vpn :: HasDir(m, q) && q != pid && Content(m, q, v).Some? ==>
      Content(Without(m, pid), q, v) == Content(m, q, v)
  {
    WithoutGood(m, pid);
    var n := Without(m, pid);
    hide Without, HasDir, Pde, Behind, HasPte;
    forall q: Pid, v: Vpn | HasDir(m, q) && q != pid && Walk(m, q, v).Some?
      ensures Walk(n, q, v) == Walk(m, q, v) && Content(n, q, v) == Content(m, q, v)
    {
      WalkLands(m, q, v);
      WalkOwner(m, q, v);
      WithoutBehind(m, pid, Walk(m, q, v).value);
    }
  }

  // ---- small facts for the device ---------------------------------------------------------------

  lemma EvictDirs(m: Memory, r: PteRef)
    requires Evictable(m, r)
    ensures Evict(m, r).dirs == m.dirs && Evict(m, r).dirMem == m.dirMem
  {
  }

  lemma AddTableDirs(m: Memory, pid: Pid, i: nat, f: Frame)
    requires HasDir(m, pid) && i < ENTRIES
    ensures AddTable(m, pid, i, f).dirs == m.dirs
  {
  }

  lemma SameDir(m: Memory, n: Memory, p: Pid, i: nat)
    requires n.dirs == m.dirs && n.dirMem == m.dirMem && HasDir(m, p) && i < ENTRIES
    ensures HasDir(n, p) && Pde(n, p, i) == Pde(m, p, i)
  {
  }

  lemma AddPagePreserves(m: Memory, r: PteRef, f: Frame, bytes: Page)
    requires Good(m) && HasPte(m, r) && !Pte(m, r).present && FreeFrame(m, f)
    requires r in m.swap ==> bytes == m.swap[r]
    ensures Preserves(m, AddPage(m, r, f, bytes))
    ensures AddPage(m, r, f, bytes).dirs == m.dirs && AddPage(m, r, f, bytes).dirMem == m.dirMem
  {
    hide Good, Preserves, FreeFrame;
    AddPageKeeps(m, r, f, bytes);
    EntriesPreserve(m, AddPage(m, r, f, bytes));
  }

  lemma PresentUsable(m: Memory, r: PteRef)
    requires Good(m) && HasPte(m, r) && Pte(m, r).present
    ensures Usable(Pte(m, r)) && Pte(m, r).base in m.pageMem
  {
    hide DirsGood, TablesGood;
  }

  lemma PresentInMemory(m: Memory, r: PteRef)
    requires Good(m) && HasPte(m, r) && Pte(m, r).present
    ensures Evictable(m, r)
  {
    hide Good, HasPte, Pte;
    PresentUsable(m, r);
  }

  lemma EmptyTlb(m: Memory, p: Pid)
    ensures TlbGood(m, map[], p)
  {
  }

  lemma LiveHasDir(m: Memory, p: Pid)
    requires Good(m) && p in m.dirs
    ensures HasDir(m, p)
  {
    hide TablesGood, PagesGood;
  }

  lemma StillWalks(m: Memory, n: Memory, p: Pid, v: Vpn)
    requires Preserves(m, n) && HasDir(m, p) && Walk(m, p, v).Some?
    ensures HasDir(n, p) && Walk(n, p, v) == Walk(m, p, v)
  {
    hide HasDir, Walk, Content;
  }

  lemma PresentContent(m: Memory, p: Pid, v: Vpn)
    requires HasDir(m, p) && Walk(m, p, v).Some? && Evictable(m, Walk(m, p, v).value)
    ensures Content(m, p, v) == Some(m.pageMem[Pte(m, Walk(m, p, v).value).base])
  {
  }

  lemma MarkPreserves(m: Memory, r: PteRef, dirty: bool)
    requires Good(m) && HasPte(m, r)
    ensures Good(Mark(m, r, dirty)) && Preserves(m, Mark(m, r, dirty))
    ensures Mark(m, r, dirty).dirs == m.dirs
  {
    hide Good, Preserves;
    MarkKeeps(m, r, dirty);
    EntriesPreserve(m, Mark(m, r, dirty));
  }

  /** The page behind an address was used: its entry is marked accessed, and dirty after a write. */
  ghost predicate MarkedUsed(m: Memory, p: Pid, v: Vpn, written: bool) {
    && HasDir(m, p) && Walk(m, p, v).Some? && HasPte(m, Walk(m, p, v).value)
    && Usable(Pte(m, Walk(m, p, v).value)) && Pte(m, Walk(m, p, v).value).accessed
    && (written ==> Pte(m, Walk(m, p, v).value).dirty)
  }

  lemma MarkMarks(m: Memory, p: Pid, v: Vpn, dirty: bool)
    requires Good(m) && HasDir(m, p) && Walk(m, p, v).Some?
    requires HasPte(m, Walk(m, p, v).value) && Usable(Pte(m, Walk(m, p, v).value))
    ensures MarkedUsed(Mark(m, Walk(m, p, v).value, dirty), p, v, dirty)
  {
    hide Good;
  }

  lemma StoreTables(m: Memory, r: PteRef, off: nat, data: seq<Byte>)
    requires Evictable(m, r) && off + |data| <= PAGE_SIZE
    ensures Store(m, r, off, data).dirs == m.dirs && HasPte(Store(m, r, off, data), r)
    ensures Pte(Store(m, r, off, data), r) == Pte(m, r)
  {
  }

  lemma TlbSameWalks(m: Memory, n: Memory, tlb: map<Vpn, PteRef>, cur: Pid)
    requires TlbGood(m, tlb, cur)
    requires forall q: Pid :: HasDir(n, q) <==> HasDir(m, q)
    requires forall q: Pid, w: Vpn :: HasDir(m, q) ==> Walk(n, q, w) == Walk(m, q, w)
    ensures TlbGood(n, tlb, cur)
  {
    hide HasDir, Walk;
  }

  /** A table whose entries are absent and hold no bytes. */
  ghost predicate EmptyTable(m: Memory, t: Frame) {
    forall j: nat :: j < ENTRIES ==>
      HasPte(m, PteRef(t, j)) && !Pte(m, PteRef(t, j)).present && Behind(m, PteRef(t, j)).None?
  }

  lemma FreshHolds(m: Memory, pid: Pid, i: nat, f: Frame)
    requires Good(m) && HasDir(m, pid) && i < ENTRIES && FreeFrame(m, f)
    ensures EmptyTable(AddTable(m, pid, i, f), f)
  {
    forall j: nat | j < ENTRIES
      ensures HasPte(AddTable(m, pid, i, f), PteRef(f, j)) && !Pte(AddTable(m, pid, i, f), PteRef(f, j)).present
      ensures Behind(AddTable(m, pid, i, f), PteRef(f, j)).None?
    {
      if PteRef(f, j) in m.swap {
        NoStraySwap(m, PteRef(f, j));
      }
    }
  }

  lemma NoBytesNoSwap(m: Memory, r: PteRef)
    requires Behind(m, r).None?
    ensures r !in m.swap
  {
  }

  lemma AddDirDirs(m: Memory, pid: Pid, f: Frame)
    ensures AddDir(m, pid, f).dirs == m.dirs[pid := f]
  {
  }

  /** The table of directory entry 0 in a directory with no other entry. */
  ghost predicate OnlyTable(m: Memory, pid: Pid, t: Frame) {
    && HasDir(m, pid) && Pde(m, pid, 0).present && Pde(m, pid, 0).base == t
    && forall i: nat :: 0 < i < ENTRIES ==> !Pde(m, pid, i).present
  }

  lemma OnlyTableWalks(m: Memory, pid: Pid, t: Frame)
    requires OnlyTable(m, pid, t)
    ensures forall v: Vpn :: Walk(m, pid, v) == if v < ENTRIES then Some(PteRef(t, v)) else None
    ensures forall v: Vpn :: Content(m, pid, v) == if v < ENTRIES then Behind(m, PteRef(t, v)) else None
  {
    hide Pde, HasDir, Behind;
  }

  lemma FirstTable(m: Memory, pid: Pid, f: Frame)
    requires Good(m) && FreeFrame(m, f) && HasDir(m, pid)
    requires forall i: nat :: i < ENTRIES ==> !Pde(m, pid, i).present
    ensures OnlyTable(AddTable(m, pid, 0, f), pid, f)
  {
    hide Good, FreeFrame, HasDir, Pde, AddTable, HasPte, Behind;
    AddTableKeeps(m, pid, 0, f);
  }

  lemma OnlyTableStays(m: Memory, n: Memory, pid: Pid, t: Frame)
    requires OnlyTable(m, pid, t) && n.dirs == m.dirs && n.dirMem == m.dirMem
    ensures OnlyTable(n, pid, t)
  {
    assert forall i: nat :: i < ENTRIES ==> Pde(n, pid, i) == Pde(m, pid, i);
  }

  lemma NoDirEntries(m: Memory, n: Memory, pid: Pid)
    requires n.dirs == m.dirs && n.dirMem == m.dirMem && HasDir(m, pid)
    requires forall i: nat :: i < ENTRIES ==> !Pde(m, pid, i).present
    ensures HasDir(n, pid)
    ensures forall i: nat :: i < ENTRIES ==> !Pde(n, pid, i).present
  {
    assert forall i: nat :: i < ENTRIES ==> Pde(n, pid, i) == Pde(m, pid, i);
  }

  lemma WithoutDir(m: Memory, pid: Pid)
    requires pid in m.dirs
    ensures Without(m, pid) == ReturnDir(Released(m, pid, ENTRIES, 0), pid)
    ensures Without(m, pid).dirs == m.dirs - {pid}
  {
  }

  lemma TlbOthers(m: Memory, n: Memory, tlb: map<Vpn, PteRef>, cur: Pid, pid: Pid)
    requires TlbGood(m, tlb, cur) && cur != pid
    requires forall q: Pid :: HasDir(m, q) && q != pid ==> HasDir(n, q)
    requires forall q: Pid, v: Vpn :: HasDir(m, q) && q != pid && Walk(m, q, v).Some? ==> Walk(n, q, v) == Walk(m, q, v)
    ensures TlbGood(n, tlb, cur)
  {
    hide HasDir, Walk;
  }
}
