/** Two-level page tables over physical frames, with swapped-out pages: the invariant that keeps all
    present frames distinct, and what each kernel or MMU action does to it. */
module PageTables {
  import opened Basics

  const ENTRIES: nat := 1024
  const PAGE_SIZE: nat := 4096

  type Page = bs: seq<Byte> | |bs| == PAGE_SIZE witness seq(PAGE_SIZE, _ => 0)
  type Frame = nat
  type Pid = nat
  type Vpn = v: nat | v < ENTRIES * ENTRIES
  type Address = a: nat | a < ENTRIES * ENTRIES * PAGE_SIZE

  /** A page directory entry or a page table entry. */
  datatype Entry = Entry(base: Frame, present: bool, readWrite: bool, user: bool, accessed: bool, dirty: bool)

  type Table = es: seq<Entry> | |es| == ENTRIES witness seq(ENTRIES, _ => Entry(0, false, false, false, false, false))

  /** A pointer to a page table entry: the frame of its table and its index there. */
  datatype PteRef = PteRef(table: Frame, index: nat)

  type Dirs = map<Pid, Frame>
  type Tables = map<Frame, Table>

  /** Physical memory and swap.  `tableOwner` and `pageOwner` say which entry points at a frame; they
      are bookkeeping for the proofs. */
  datatype Memory = Memory(
    dirs: Dirs,
    dirMem: Tables,
    tabMem: Tables,
    pageMem: map<Frame, Page>,
    swap: map<PteRef, Page>,
    tableOwner: map<Frame, (Pid, nat)>,
    pageOwner: map<Frame, PteRef>)

  function FreshTable(): Table {
    seq(ENTRIES, _ => Entry(0, false, false, false, false, false))
  }

  // ---- the walk ---------------------------------------------------------------------------------

  predicate DirHas(dirs: Dirs, dirMem: Tables, pid: Pid) {
    pid in dirs && dirs[pid] in dirMem
  }

  function DirEntry(dirs: Dirs, dirMem: Tables, pid: Pid, i: nat): Entry
    requires DirHas(dirs, dirMem, pid) && i < ENTRIES
  {
    dirMem[dirs[pid]][i]
  }

  predicate TabHas(tabMem: Tables, r: PteRef) {
    r.table in tabMem && r.index < ENTRIES
  }

  function TabEntry(tabMem: Tables, r: PteRef): Entry
    requires TabHas(tabMem, r)
  {
    tabMem[r.table][r.index]
  }

  predicate HasDir(m: Memory, pid: Pid) {
    DirHas(m.dirs, m.dirMem, pid)
  }

  function Pde(m: Memory, pid: Pid, i: nat): Entry
    requires HasDir(m, pid) && i < ENTRIES
  {
    DirEntry(m.dirs, m.dirMem, pid, i)
  }

  predicate HasPte(m: Memory, r: PteRef) {
    TabHas(m.tabMem, r)
  }

  function Pte(m: Memory, r: PteRef): Entry
    requires HasPte(m, r)
  {
    TabEntry(m.tabMem, r)
  }

  /** Where the two-level walk of a virtual page ends, if the directory entry is present. */
  function Walk(m: Memory, pid: Pid, vpn: Vpn): Option<PteRef>
    requires HasDir(m, pid)
  {
    var e := Pde(m, pid, vpn / ENTRIES);
    if e.present then Some(PteRef(e.base, vpn % ENTRIES)) else None
  }

  // ---- the invariant ----------------------------------------------------------------------------

  predicate Usable(e: Entry) {
    e.present && e.readWrite && e.user
  }

  /** Every directory is in a frame of its own. */
  ghost predicate DirsGood(dirs: Dirs, dirMem: Tables) {
    && (forall p: Pid :: p in dirs ==> dirs[p] in dirMem)
    && (forall p: Pid, q: Pid :: p in dirs && q in dirs && p != q ==> dirs[p] != dirs[q])
  }

  predicate PointsAtTable(dirs: Dirs, dirMem: Tables, at: (Pid, nat), t: Frame) {
    && DirHas(dirs, dirMem, at.0) && at.1 < ENTRIES
    && DirEntry(dirs, dirMem, at.0, at.1).present && DirEntry(dirs, dirMem, at.0, at.1).base == t
  }

  /** Present directory entries point at tables, each at its own, and every table is pointed at. */
  ghost predicate TablesGood(dirs: Dirs, dirMem: Tables, tables: set<Frame>, owner: map<Frame, (Pid, nat)>) {
    && owner.Keys == tables
    && (forall p: Pid, i: nat :: DirHas(dirs, dirMem, p) && i < ENTRIES && DirEntry(dirs, dirMem, p, i).present ==>
          DirEntry(dirs, dirMem, p, i).base in tables && owner[DirEntry(dirs, dirMem, p, i).base] == (p, i))
    && (forall t: Frame :: t in tables ==> PointsAtTable(dirs, dirMem, owner[t], t))
  }

  predicate PointsAtPage(tabMem: Tables, at: PteRef, f: Frame) {
    TabHas(tabMem, at) && TabEntry(tabMem, at).present && TabEntry(tabMem, at).base == f
  }

  /** Present table entries are usable and point at pages, each at its own, and every page is pointed
      at; swapped pages belong to entries of existing tables. */
  ghost predicate PagesGood(tabMem: Tables, pages: set<Frame>, owner: map<Frame, PteRef>, swapped: set<PteRef>) {
    && owner.Keys == pages
    && (forall r: PteRef :: TabHas(tabMem, r) && TabEntry(tabMem, r).present ==>
          Usable(TabEntry(tabMem, r)) && TabEntry(tabMem, r).base in pages && owner[TabEntry(tabMem, r).base] == r)
    && (forall f: Frame :: f in pages ==> PointsAtPage(tabMem, owner[f], f))
    && (forall r: PteRef :: r in swapped ==> TabHas(tabMem, r))
  }

  ghost predicate Good(m: Memory) {
    && DirsGood(m.dirs, m.dirMem)
    && TablesGood(m.dirs, m.dirMem, m.tabMem.Keys, m.tableOwner)
    && PagesGood(m.tabMem, m.pageMem.Keys, m.pageOwner, m.swap.Keys)
    && m.dirMem.Keys !! m.tabMem.Keys !! m.pageMem.Keys
  }

  /** The kernel hands out only frames that are not in use. */
  predicate FreeFrame(m: Memory, f: Frame) {
    f !in m.dirMem && f !in m.tabMem && f !in m.pageMem
  }

  /** No frame is used twice: two present entries anywhere never share a frame. */
  lemma PresentFramesDistinct(m: Memory, r: PteRef, s: PteRef)
    requires Good(m) && HasPte(m, r) && HasPte(m, s) && Pte(m, r).present && Pte(m, s).present
    ensures r != s ==> Pte(m, r).base != Pte(m, s).base
    ensures Pte(m, r).base !in m.dirMem && Pte(m, r).base !in m.tabMem
  {
    assert m.pageOwner[Pte(m, r).base] == r;
  }

  /** Two walks end at the same entry only for the same page of the same process. */
  lemma WalksApart(m: Memory, p: Pid, v: Vpn, q: Pid, w: Vpn)
    requires Good(m) && HasDir(m, p) && HasDir(m, q)
    requires Walk(m, p, v).Some? && Walk(m, p, v) == Walk(m, q, w)
    ensures p == q && v == w
  {
    hide DirsGood, PagesGood;
    assert m.tableOwner[Pde(m, p, v / ENTRIES).base] == (p, v / ENTRIES);
    assert m.tableOwner[Pde(m, q, w / ENTRIES).base] == (q, w / ENTRIES);
    assert v == ENTRIES * (v / ENTRIES) + v % ENTRIES;
    assert w == ENTRIES * (w / ENTRIES) + w % ENTRIES;
  }

  // ---- what a page holds ------------------------------------------------------------------------

  /** The bytes behind an entry: in memory, in swap, or nowhere yet. */
  function Held(tabMem: Tables, pages: map<Frame, Page>, swap: map<PteRef, Page>, r: PteRef): Option<Page> {
    if TabHas(tabMem, r) && TabEntry(tabMem, r).present && TabEntry(tabMem, r).base in pages then
      Some(pages[TabEntry(tabMem, r).base])
    else if r in swap then Some(swap[r])
    else None
  }

  function Behind(m: Memory, r: PteRef): Option<Page> {
    Held(m.tabMem, m.pageMem, m.swap, r)
  }

  function Content(m: Memory, pid: Pid, vpn: Vpn): Option<Page>
    requires HasDir(m, pid)
  {
    match Walk(m, pid, vpn)
    case Some(r) => Behind(m, r)
    case None => None
  }

  // ---- actions ----------------------------------------------------------------------------------

  /** The kernel saves a present page to swap and takes its frame back. */
  function Evict(m: Memory, r: PteRef): Memory
    requires HasPte(m, r) && Pte(m, r).present && Pte(m, r).base in m.pageMem
  {
    var f := Pte(m, r).base;
    m.(swap := m.swap[r := m.pageMem[f]],
       tabMem := m.tabMem[r.table := m.tabMem[r.table][r.index := Pte(m, r).(present := false)]],
       pageMem := m.pageMem - {f},
       pageOwner := m.pageOwner - {f})
  }

  /** A directory entry gets a fresh table in frame `f`. */
  function AddTable(m: Memory, pid: Pid, i: nat, f: Frame): Memory
    requires HasDir(m, pid) && i < ENTRIES
  {
    var d := m.dirs[pid];
    var e := m.dirMem[d][i].(base := f, present := true, readWrite := true, user := true);
    m.(dirMem := m.dirMem[d := m.dirMem[d][i := e]],
       tabMem := m.tabMem[f := FreshTable()],
       tableOwner := m.tableOwner[f := (pid, i)])
  }

  /** A table entry gets frame `f`, holding `bytes`. */
  function AddPage(m: Memory, r: PteRef, f: Frame, bytes: Page): Memory
    requires HasPte(m, r)
  {
    var e := Pte(m, r).(base := f, present := true, readWrite := true, user := true);
    m.(tabMem := m.tabMem[r.table := m.tabMem[r.table][r.index := e]],
       pageMem := m.pageMem[f := bytes],
       pageOwner := m.pageOwner[f := r])
  }

  /** The accessed and dirty bits of an entry. */
  function Mark(m: Memory, r: PteRef, dirty: bool): Memory
    requires HasPte(m, r)
  {
    var e := Pte(m, r).(accessed := true, dirty := dirty || Pte(m, r).dirty);
    m.(tabMem := m.tabMem[r.table := m.tabMem[r.table][r.index := e]])
  }

  function Splice(page: Page, offset: nat, data: seq<Byte>): (p: Page)
    requires offset + |data| <= PAGE_SIZE
    ensures forall x :: 0 <= x < PAGE_SIZE ==>
      p[x] == if offset <= x < offset + |data| then data[x - offset] else page[x]
  {
    page[..offset] + data + page[offset + |data|..]
  }

  function Store(m: Memory, r: PteRef, offset: nat, data: seq<Byte>): Memory
    requires HasPte(m, r) && Pte(m, r).base in m.pageMem && offset + |data| <= PAGE_SIZE
  {
    var f := Pte(m, r).base;
    m.(pageMem := m.pageMem[f := Splice(m.pageMem[f], offset, data)])
  }

  function AddDir(m: Memory, pid: Pid, f: Frame): Memory {
    m.(dirs := m.dirs[pid := f], dirMem := m.dirMem[f := FreshTable()])
  }

  // ---- what they keep ---------------------------------------------------------------------------

  /** Exactly the entry `r` was written, with `e`. */
  ghost predicate EntrySet(a: Tables, b: Tables, r: PteRef, e: Entry) {
    && TabHas(a, r) && b.Keys == a.Keys
    && (forall s: PteRef :: TabHas(b, s) <==> TabHas(a, s))
    && (forall s: PteRef :: TabHas(b, s) ==> TabEntry(b, s) == if s == r then e else TabEntry(a, s))
  }

  lemma SetEntry(tabMem: Tables, r: PteRef, e: Entry)
    requires TabHas(tabMem, r)
    ensures EntrySet(tabMem, tabMem[r.table := tabMem[r.table][r.index := e]], r, e)
  {
  }

  lemma PagesWithout(a: Tables, b: Tables, pages: set<Frame>, owner: map<Frame, PteRef>, swapped: set<PteRef>,
          r: PteRef, e: Entry)
    requires PagesGood(a, pages, owner, swapped) && EntrySet(a, b, r, e)
    requires TabEntry(a, r).present && !e.present
    ensures PagesGood(b, pages - {TabEntry(a, r).base}, owner - {TabEntry(a, r).base}, swapped + {r})
  {
    hide TabHas, TabEntry;
    var f := TabEntry(a, r).base;
    assert (owner - {f}).Keys == pages - {f};
  }

  lemma PagesWith(a: Tables, b: Tables, pages: set<Frame>, owner: map<Frame, PteRef>, swapped: set<PteRef>,
          r: PteRef, e: Entry)
    requires PagesGood(a, pages, owner, swapped) && EntrySet(a, b, r, e)
    requires !TabEntry(a, r).present && Usable(e) && e.base !in pages
    ensures PagesGood(b, pages + {e.base}, owner[e.base := r], swapped)
  {
    hide TabHas, TabEntry;
    assert owner[e.base := r].Keys == pages + {e.base};
  }

  lemma PagesSame(a: Tables, b: Tables, pages: set<Frame>, owner: map<Frame, PteRef>, swapped: set<PteRef>,
          r: PteRef, e: Entry)
    requires PagesGood(a, pages, owner, swapped) && EntrySet(a, b, r, e)
    requires e.base == TabEntry(a, r).base && e.present == TabEntry(a, r).present
    requires Usable(TabEntry(a, r)) ==> Usable(e)
    ensures PagesGood(b, pages, owner, swapped)
  {
    hide TabHas, TabEntry;
  }

  /** No two present entries point at one frame. */
  lemma Alone(a: Tables, pages: set<Frame>, owner: map<Frame, PteRef>, swapped: set<PteRef>, r: PteRef)
    requires PagesGood(a, pages, owner, swapped) && TabHas(a, r) && TabEntry(a, r).present
    ensures TabEntry(a, r).base in pages
    ensures forall s: PteRef :: TabHas(a, s) && TabEntry(a, s).present && s != r ==>
      TabEntry(a, s).base != TabEntry(a, r).base
  {
    hide TabHas, TabEntry;
    assert owner[TabEntry(a, r).base] == r;
  }

  lemma AllPaged(a: Tables, pages: set<Frame>, owner: map<Frame, PteRef>, swapped: set<PteRef>)
    requires PagesGood(a, pages, owner, swapped)
    ensures forall s: PteRef :: TabHas(a, s) && TabEntry(a, s).present ==> TabEntry(a, s).base in pages
  {
    hide TabHas, TabEntry;
  }

  lemma EvictKeeps(m: Memory, r: PteRef)
    requires Good(m) && HasPte(m, r) && Pte(m, r).present
    ensures Pte(m, r).base in m.pageMem && Good(Evict(m, r))
    ensures forall s: PteRef :: HasPte(m, s) <==> HasPte(Evict(m, r), s)
    ensures forall s: PteRef :: HasPte(m, s) ==>
      Behind(Evict(m, r), s) == Behind(m, s) && (s != r ==> Pte(Evict(m, r), s) == Pte(m, s))
    ensures !Pte(Evict(m, r), r).present
  {
    hide DirsGood, TablesGood, PagesGood, TabHas, TabEntry;
    Alone(m.tabMem, m.pageMem.Keys, m.pageOwner, m.swap.Keys, r);
    var n := Evict(m, r);
    SetEntry(m.tabMem, r, Pte(m, r).(present := false));
    PagesWithout(m.tabMem, n.tabMem, m.pageMem.Keys, m.pageOwner, m.swap.Keys, r, Pte(m, r).(present := false));
    assert n.pageMem.Keys == m.pageMem.Keys - {Pte(m, r).base};
    assert n.swap.Keys == m.swap.Keys + {r};
  }

  lemma AddPageKeeps(m: Memory, r: PteRef, f: Frame, bytes: Page)
    requires Good(m) && HasPte(m, r) && !Pte(m, r).present && FreeFrame(m, f)
    requires r in m.swap ==> bytes == m.swap[r]
    ensures Good(AddPage(m, r, f, bytes))
    ensures forall s: PteRef :: HasPte(m, s) <==> HasPte(AddPage(m, r, f, bytes), s)
    ensures forall s: PteRef :: HasPte(m, s) && (s != r || r in m.swap) ==>
      Behind(AddPage(m, r, f, bytes), s) == Behind(m, s)
    ensures forall s: PteRef :: HasPte(m, s) && s != r ==> Pte(AddPage(m, r, f, bytes), s) == Pte(m, s)
    ensures Usable(Pte(AddPage(m, r, f, bytes), r)) && Behind(AddPage(m, r, f, bytes), r) == Some(bytes)
  {
    hide DirsGood, TablesGood, PagesGood, TabHas, TabEntry;
    var n := AddPage(m, r, f, bytes);
    var e := Pte(m, r).(base := f, present := true, readWrite := true, user := true);
    AllPaged(m.tabMem, m.pageMem.Keys, m.pageOwner, m.swap.Keys);
    SetEntry(m.tabMem, r, e);
    PagesWith(m.tabMem, n.tabMem, m.pageMem.Keys, m.pageOwner, m.swap.Keys, r, e);
    assert n.pageMem.Keys == m.pageMem.Keys + {f};
  }

  lemma MarkKeeps(m: Memory, r: PteRef, dirty: bool)
    requires Good(m) && HasPte(m, r)
    ensures Good(Mark(m, r, dirty))
    ensures forall s: PteRef :: HasPte(m, s) <==> HasPte(Mark(m, r, dirty), s)
    ensures forall s: PteRef :: HasPte(m, s) ==> Behind(Mark(m, r, dirty), s) == Behind(m, s)
    ensures forall s: PteRef :: HasPte(m, s) && s != r ==> Pte(Mark(m, r, dirty), s) == Pte(m, s)
  {
    hide DirsGood, TablesGood, PagesGood, TabHas, TabEntry;
    var n := Mark(m, r, dirty);
    var e := Pte(m, r).(accessed := true, dirty := dirty || Pte(m, r).dirty);
    SetEntry(m.tabMem, r, e);
    PagesSame(m.tabMem, n.tabMem, m.pageMem.Keys, m.pageOwner, m.swap.Keys, r, e);
  }

  lemma StoreKeeps(m: Memory, r: PteRef, offset: nat, data: seq<Byte>)
    requires Good(m) && HasPte(m, r) && Pte(m, r).present && offset + |data| <= PAGE_SIZE
    ensures Pte(m, r).base in m.pageMem && Good(Store(m, r, offset, data))
    ensures forall s: PteRef :: HasPte(m, s) && s != r ==> Behind(Store(m, r, offset, data), s) == Behind(m, s)
    ensures Behind(m, r).Some? && Behind(Store(m, r, offset, data), r) == Some(Splice(Behind(m, r).value, offset, data))
  {
    hide DirsGood, TablesGood, PagesGood, TabHas, TabEntry, Splice;
    Alone(m.tabMem, m.pageMem.Keys, m.pageOwner, m.swap.Keys, r);
    var n := Store(m, r, offset, data);
    assert n.pageMem.Keys == m.pageMem.Keys;
  }

  /** Exactly entry `i` of the directory of `pid` was written, with `e`. */
  ghost predicate DirEntrySet(dirs: Dirs, a: Tables, b: Tables, pid: Pid, i: nat, e: Entry) {
    && DirHas(dirs, a, pid) && i < ENTRIES && b.Keys == a.Keys
    && (forall p: Pid :: DirHas(dirs, b, p) <==> DirHas(dirs, a, p))
    && (forall p: Pid, j: nat :: DirHas(dirs, a, p) && j < ENTRIES ==>
          DirEntry(dirs, b, p, j) == if p == pid && j == i then e else DirEntry(dirs, a, p, j))
  }

  lemma SetDirEntry(dirs: Dirs, dirMem: Tables, pid: Pid, i: nat, e: Entry)
    requires DirsGood(dirs, dirMem) && DirHas(dirs, dirMem, pid) && i < ENTRIES
    ensures var after := dirMem[dirs[pid] := dirMem[dirs[pid]][i := e]];
      DirEntrySet(dirs, dirMem, after, pid, i, e) && DirsGood(dirs, after)
  {
  }

  lemma TablesWith(dirs: Dirs, a: Tables, b: Tables, tables: set<Frame>, owner: map<Frame, (Pid, nat)>, pid: Pid,
          i: nat, e: Entry)
    requires TablesGood(dirs, a, tables, owner) && DirEntrySet(dirs, a, b, pid, i, e)
    requires !DirEntry(dirs, a, pid, i).present && e.present && e.base !in tables
    ensures TablesGood(dirs, b, tables + {e.base}, owner[e.base := (pid, i)])
  {
    hide DirHas, DirEntry;
    assert owner[e.base := (pid, i)].Keys == tables + {e.base};
  }

  /** `b` is `a` with a fresh table in frame `f`. */
  ghost predicate FreshAt(a: Tables, b: Tables, f: Frame) {
    && b.Keys == a.Keys + {f}
    && (forall s: PteRef :: TabHas(b, s) <==> TabHas(a, s) || (s.table == f && s.index < ENTRIES))
    && (forall s: PteRef :: TabHas(a, s) ==> s.table != f && TabEntry(b, s) == TabEntry(a, s))
    && (forall s: PteRef :: TabHas(b, s) && s.table == f ==> !TabEntry(b, s).present)
  }

  lemma FreshTableAt(a: Tables, f: Frame)
    requires f !in a
    ensures FreshAt(a, a[f := FreshTable()], f)
  {
  }

  lemma PagesFresh(a: Tables, b: Tables, pages: set<Frame>, owner: map<Frame, PteRef>, swapped: set<PteRef>, f: Frame)
    requires PagesGood(a, pages, owner, swapped) && FreshAt(a, b, f)
    ensures PagesGood(b, pages, owner, swapped)
  {
    hide TabHas, TabEntry;
  }

  lemma NoStraySwap(m: Memory, r: PteRef)
    requires Good(m) && r in m.swap
    ensures HasPte(m, r)
  {
  }

  lemma AddTableKeeps(m: Memory, pid: Pid, i: nat, f: Frame)
    requires Good(m) && HasDir(m, pid) && i < ENTRIES && !Pde(m, pid, i).present && FreeFrame(m, f)
    ensures Good(AddTable(m, pid, i, f))
    ensures forall p: Pid :: HasDir(m, p) <==> HasDir(AddTable(m, pid, i, f), p)
    ensures forall p: Pid, j: nat :: HasDir(m, p) && j < ENTRIES && !(p == pid && j == i) ==>
      Pde(AddTable(m, pid, i, f), p, j) == Pde(m, p, j)
    ensures var e := Pde(AddTable(m, pid, i, f), pid, i); e.present && e.base == f
    ensures forall s: PteRef :: HasPte(AddTable(m, pid, i, f), s) && s.table == f ==>
      !Pte(AddTable(m, pid, i, f), s).present
    ensures forall s: PteRef ::
      HasPte(AddTable(m, pid, i, f), s) <==> HasPte(m, s) || (s.table == f && s.index < ENTRIES)
    ensures forall s: PteRef :: HasPte(m, s) ==>
      Behind(AddTable(m, pid, i, f), s) == Behind(m, s) && Pte(AddTable(m, pid, i, f), s) == Pte(m, s)
  {
    var n := AddTable(m, pid, i, f);
    var e := Pde(m, pid, i).(base := f, present := true, readWrite := true, user := true);
    SetDirEntry(m.dirs, m.dirMem, pid, i, e);
    FreshTableAt(m.tabMem, f);
    assert n.tabMem == m.tabMem[f := FreshTable()];
    hide DirsGood, TablesGood, PagesGood, TabHas, TabEntry, DirHas, DirEntry, FreshTable;
    TablesWith(m.dirs, m.dirMem, n.dirMem, m.tabMem.Keys, m.tableOwner, pid, i, e);
    PagesFresh(m.tabMem, n.tabMem, m.pageMem.Keys, m.pageOwner, m.swap.Keys, f);
  }

  /** `pid` joins with an empty directory in frame `f`. */
  ghost predicate DirJoined(dirs: Dirs, a: Tables, more: Dirs, b: Tables, pid: Pid, f: Frame) {
    && b.Keys == a.Keys + {f}
    && (forall p: Pid :: DirHas(more, b, p) <==> p == pid || DirHas(dirs, a, p))
    && !DirHas(dirs, a, pid)
    && (forall p: Pid, j: nat :: DirHas(dirs, a, p) && j < ENTRIES ==>
          DirEntry(more, b, p, j) == DirEntry(dirs, a, p, j))
    && (forall j: nat :: j < ENTRIES ==> !DirEntry(more, b, pid, j).present)
  }

  lemma JoinDir(dirs: Dirs, a: Tables, pid: Pid, f: Frame)
    requires DirsGood(dirs, a) && pid !in dirs && f !in a
    ensures DirJoined(dirs, a, dirs[pid := f], a[f := FreshTable()], pid, f)
    ensures DirsGood(dirs[pid := f], a[f := FreshTable()])
  {
    forall p: Pid | p in dirs ensures dirs[p] != f {
      assert dirs[p] in a;
    }
  }

  lemma TablesJoined(dirs: Dirs, a: Tables, more: Dirs, b: Tables, tables: set<Frame>,
          owner: map<Frame, (Pid, nat)>, pid: Pid, f: Frame)
    requires TablesGood(dirs, a, tables, owner) && DirJoined(dirs, a, more, b, pid, f)
    ensures TablesGood(more, b, tables, owner)
  {
    hide DirHas, DirEntry;
  }

  lemma AddDirKeeps(m: Memory, pid: Pid, f: Frame)
    requires Good(m) && pid !in m.dirs && FreeFrame(m, f)
    ensures Good(AddDir(m, pid, f)) && HasDir(AddDir(m, pid, f), pid)
    ensures forall i: nat :: i < ENTRIES ==> !Pde(AddDir(m, pid, f), pid, i).present
    ensures forall p: Pid :: HasDir(AddDir(m, pid, f), p) <==> p == pid || HasDir(m, p)
    ensures forall p: Pid, j: nat :: HasDir(m, p) && j < ENTRIES ==> Pde(AddDir(m, pid, f), p, j) == Pde(m, p, j)
  {
    var n := AddDir(m, pid, f);
    JoinDir(m.dirs, m.dirMem, pid, f);
    hide DirsGood, TablesGood, PagesGood, DirHas, DirEntry, FreshTable;
    TablesJoined(m.dirs, m.dirMem, n.dirs, n.dirMem, m.tabMem.Keys, m.tableOwner, pid, f);
  }
}
