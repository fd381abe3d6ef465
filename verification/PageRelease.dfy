/** Taking a process apart: its pages, its swap files, its tables and its directory go back to the
    kernel, one at a time, and nothing else does. */
module PageRelease {
  import opened Basics
  import opened PageTables

  /** Entry `r` belongs to `pid` and comes before entry `(i, j)` of its directory and table. */
  predicate Done(owner: map<Frame, (Pid, nat)>, pid: Pid, i: nat, j: nat, r: PteRef) {
    && r.table in owner && owner[r.table].0 == pid
    && (owner[r.table].1 < i || (owner[r.table].1 == i && r.index < j))
  }

  function DoneTables(m: Memory, pid: Pid, i: nat): set<Frame> {
    set t: Frame | t in m.tableOwner && m.tableOwner[t].0 == pid && m.tableOwner[t].1 < i
  }

  function DonePages(m: Memory, pid: Pid, i: nat, j: nat): set<Frame> {
    set f: Frame | f in m.pageOwner && Done(m.tableOwner, pid, i, j, m.pageOwner[f])
  }

  function DoneSwap(m: Memory, pid: Pid, i: nat, j: nat): set<PteRef> {
    set r: PteRef | r in m.swap && Done(m.tableOwner, pid, i, j, r)
  }

  /** `m` after entries before `(i, j)` of `pid` have been released. */
  function Released(m: Memory, pid: Pid, i: nat, j: nat): Memory {
    m.(tabMem := m.tabMem - DoneTables(m, pid, i),
       tableOwner := m.tableOwner - DoneTables(m, pid, i),
       pageMem := m.pageMem - DonePages(m, pid, i, j),
       pageOwner := m.pageOwner - DonePages(m, pid, i, j),
       swap := m.swap - DoneSwap(m, pid, i, j))
  }

  function ReturnPage(m: Memory, f: Frame): Memory {
    m.(pageMem := m.pageMem - {f}, pageOwner := m.pageOwner - {f})
  }

  function RemoveSwap(m: Memory, r: PteRef): Memory {
    m.(swap := m.swap - {r})
  }

  function ReturnTable(m: Memory, t: Frame): Memory {
    m.(tabMem := m.tabMem - {t}, tableOwner := m.tableOwner - {t})
  }

  function ReturnDir(m: Memory, pid: Pid): Memory
    requires pid in m.dirs
  {
    m.(dirs := m.dirs - {pid}, dirMem := m.dirMem - {m.dirs[pid]})
  }

  /** `m` without the process. */
  function Without(m: Memory, pid: Pid): Memory
    requires pid in m.dirs
  {
    ReturnDir(Released(m, pid, ENTRIES, 0), pid)
  }

  /** One turn of the inner loop. */
  function ReleaseEntry(m: Memory, r: PteRef): Memory
    requires HasPte(m, r)
  {
    RemoveSwap(if Pte(m, r).present then ReturnPage(m, Pte(m, r).base) else m, r)
  }

  lemma ReleaseNothing(m: Memory, pid: Pid)
    ensures Released(m, pid, 0, 0) == m
  {
    var n := Released(m, pid, 0, 0);
    assert n.tabMem == m.tabMem && n.tableOwner == m.tableOwner;
    assert n.pageMem == m.pageMem && n.pageOwner == m.pageOwner && n.swap == m.swap;
  }

  /** The table the directory entry points at is still there, unchanged, while it is being emptied. */
  lemma TableStands(m: Memory, pid: Pid, i: nat, j: nat)
    requires Good(m) && HasDir(m, pid) && i < ENTRIES && Pde(m, pid, i).present
    ensures var t := Pde(m, pid, i).base;
      && t in Released(m, pid, i, j).tabMem && m.tableOwner[t] == (pid, i)
      && Released(m, pid, i, j).tabMem[t] == m.tabMem[t]
  {
    hide PagesGood, DirsGood;
    assert PageTables.DirEntry(m.dirs, m.dirMem, pid, i).present;
  }

  lemma ReleasedDir(m: Memory, pid: Pid, i: nat, j: nat)
    requires HasDir(m, pid)
    ensures HasDir(Released(m, pid, i, j), pid) && Released(m, pid, i, j).dirs == m.dirs
    ensures forall k: nat :: k < ENTRIES ==> Pde(Released(m, pid, i, j), pid, k) == Pde(m, pid, k)
  {
  }

  lemma DonePagesNext(m: Memory, pid: Pid, i: nat, j: nat, r: PteRef)
    requires PagesGood(m.tabMem, m.pageMem.Keys, m.pageOwner, m.swap.Keys) && HasPte(m, r)
    requires forall t: Frame :: t in m.tableOwner && m.tableOwner[t] == (pid, i) ==> t == r.table
    requires r.table in m.tableOwner && m.tableOwner[r.table] == (pid, i) && r.index == j
    ensures DonePages(m, pid, i, j + 1) == DonePages(m, pid, i, j) + if Pte(m, r).present then {Pte(m, r).base} else {}
    ensures DoneSwap(m, pid, i, j + 1) == DoneSwap(m, pid, i, j) + if r in m.swap then {r} else {}
  {
    forall s: PteRef
      ensures Done(m.tableOwner, pid, i, j + 1, s) <==> Done(m.tableOwner, pid, i, j, s) || s == r
    {
    }
    hide Done, TabHas, TabEntry;
  }

  /** Tables are pointed at by one directory entry only. */
  lemma OneTable(m: Memory, pid: Pid, i: nat, t: Frame)
    requires Good(m) && t in m.tableOwner && m.tableOwner[t] == (pid, i)
    ensures HasDir(m, pid) && i < ENTRIES && Pde(m, pid, i).present && Pde(m, pid, i).base == t
  {
    hide PagesGood, DirsGood;
    assert PointsAtTable(m.dirs, m.dirMem, m.tableOwner[t], t);
  }

  lemma SubtractMore<K, V>(m: map<K, V>, a: set<K>, b: set<K>, more: set<K>)
    requires b == a + more
    ensures m - b == m - a - more
  {
  }

  lemma SubtractKey<K, V>(m: map<K, V>, a: set<K>, b: set<K>, k: K)
    requires b == a + if k in m then {k} else {}
    ensures m - b == m - a - {k}
  {
  }

  lemma NextParts(m: Memory, pid: Pid, i: nat, j: nat)
    requires Good(m) && HasDir(m, pid) && i < ENTRIES && Pde(m, pid, i).present && j < ENTRIES
    ensures var r := PteRef(Pde(m, pid, i).base, j);
      && HasPte(m, r) && HasPte(Released(m, pid, i, j), r) && Pte(Released(m, pid, i, j), r) == Pte(m, r)
      && DonePages(m, pid, i, j + 1) == DonePages(m, pid, i, j) + (if Pte(m, r).present then {Pte(m, r).base} else {})
      && DoneSwap(m, pid, i, j + 1) == DoneSwap(m, pid, i, j) + if r in m.swap then {r} else {}
  {
    var r := PteRef(Pde(m, pid, i).base, j);
    TableStands(m, pid, i, j);
    forall t: Frame | t in m.tableOwner && m.tableOwner[t] == (pid, i) ensures t == r.table {
      OneTable(m, pid, i, t);
    }
    hide DirsGood, TablesGood, PagesGood, DonePages, DoneSwap, DoneTables, Done, HasDir, Pde;
    DonePagesNext(m, pid, i, j, r);
  }

  lemma ReleaseNext(m: Memory, pid: Pid, i: nat, j: nat)
    requires Good(m) && HasDir(m, pid) && i < ENTRIES && Pde(m, pid, i).present && j < ENTRIES
    ensures var r := PteRef(Pde(m, pid, i).base, j);
      HasPte(Released(m, pid, i, j), r) && Released(m, pid, i, j + 1) == ReleaseEntry(Released(m, pid, i, j), r)
  {
    hide Good, DonePages, DoneSwap, DoneTables, Done, HasPte, Pte, HasDir, Pde;
    NextParts(m, pid, i, j);
    var r := PteRef(Pde(m, pid, i).base, j);
    SubtractKey(m.swap, DoneSwap(m, pid, i, j), DoneSwap(m, pid, i, j + 1), r);
    if Pte(m, r).present {
      var gone := {Pte(m, r).base};
      SubtractMore(m.pageMem, DonePages(m, pid, i, j), DonePages(m, pid, i, j + 1), gone);
      SubtractMore(m.pageOwner, DonePages(m, pid, i, j), DonePages(m, pid, i, j + 1), gone);
    }
  }

  lemma DoneTablesNext(m: Memory, pid: Pid, i: nat)
    requires Good(m) && HasDir(m, pid) && i < ENTRIES
    ensures DoneTables(m, pid, i + 1) ==
            DoneTables(m, pid, i) + if Pde(m, pid, i).present then {Pde(m, pid, i).base} else {}
  {
    if Pde(m, pid, i).present {
      TableStands(m, pid, i, 0);
      assert m.tableOwner.Keys == m.tabMem.Keys;
    }
    forall t: Frame | t in m.tableOwner && m.tableOwner[t] == (pid, i)
      ensures Pde(m, pid, i).present && Pde(m, pid, i).base == t
    {
      OneTable(m, pid, i, t);
    }
    hide Good, HasDir, Pde;
  }

  lemma DoneNext(m: Memory, pid: Pid, i: nat, j: nat)
    requires Good(m) && HasDir(m, pid) && i < ENTRIES
    requires j == if Pde(m, pid, i).present then ENTRIES else 0
    ensures DonePages(m, pid, i + 1, 0) == DonePages(m, pid, i, j)
    ensures DoneSwap(m, pid, i + 1, 0) == DoneSwap(m, pid, i, j)
  {
    forall r: PteRef | TabHas(m.tabMem, r)
      ensures Done(m.tableOwner, pid, i + 1, 0, r) <==> Done(m.tableOwner, pid, i, j, r)
    {
      if r.table in m.tableOwner && m.tableOwner[r.table] == (pid, i) {
        OneTable(m, pid, i, r.table);
      }
    }
    hide DirsGood, TablesGood, Done;
    assert forall f: Frame :: f in m.pageOwner ==> PointsAtPage(m.tabMem, m.pageOwner[f], f);
  }

  /** Finishing entry `i` of the directory: its table goes, or there was none. */
  lemma ReleaseTable(m: Memory, pid: Pid, i: nat)
    requires Good(m) && HasDir(m, pid) && i < ENTRIES
    ensures Pde(m, pid, i).present ==>
      Released(m, pid, i + 1, 0) == ReturnTable(Released(m, pid, i, ENTRIES), Pde(m, pid, i).base)
    ensures !Pde(m, pid, i).present ==> Released(m, pid, i + 1, 0) == Released(m, pid, i, 0)
  {
    hide Good, DonePages, DoneSwap, DoneTables, HasDir, Pde;
    DoneTablesNext(m, pid, i);
    DoneNext(m, pid, i, if Pde(m, pid, i).present then ENTRIES else 0);
    if Pde(m, pid, i).present {
      var gone := {Pde(m, pid, i).base};
      SubtractMore(m.tabMem, DoneTables(m, pid, i), DoneTables(m, pid, i + 1), gone);
      SubtractMore(m.tableOwner, DoneTables(m, pid, i), DoneTables(m, pid, i + 1), gone);
    }
  }

  // ---- what is left -----------------------------------------------------------------------------

  lemma DirsWithout(dirs: Dirs, dirMem: Tables, pid: Pid)
    requires DirsGood(dirs, dirMem) && pid in dirs
    ensures DirsGood(dirs - {pid}, dirMem - {dirs[pid]})
    ensures forall p: Pid :: DirHas(dirs - {pid}, dirMem - {dirs[pid]}, p) <==> p != pid && DirHas(dirs, dirMem, p)
    ensures forall p: Pid, j: nat :: p != pid && DirHas(dirs, dirMem, p) && j < ENTRIES ==>
      DirEntry(dirs - {pid}, dirMem - {dirs[pid]}, p, j) == DirEntry(dirs, dirMem, p, j)
  {
  }

  lemma TablesWithout(dirs: Dirs, a: Tables, less: Dirs, b: Tables, tables: set<Frame>,
          owner: map<Frame, (Pid, nat)>, pid: Pid, gone: set<Frame>)
    requires TablesGood(dirs, a, tables, owner)
    requires forall p: Pid :: DirHas(less, b, p) <==> p != pid && DirHas(dirs, a, p)
    requires forall p: Pid, j: nat :: p != pid && DirHas(dirs, a, p) && j < ENTRIES ==>
      DirEntry(less, b, p, j) == DirEntry(dirs, a, p, j)
    requires forall t: Frame :: t in owner ==> (t in gone <==> owner[t].0 == pid)
    ensures TablesGood(less, b, tables - gone, owner - gone)
  {
    hide DirHas, DirEntry;
    assert (owner - gone).Keys == tables - gone;
  }

  lemma PagesWithoutTables(a: Tables, b: Tables, pages: set<Frame>, owner: map<Frame, PteRef>, swapped: set<PteRef>,
                           tables: set<Frame>, gone: set<Frame>, dropped: set<PteRef>)
    requires PagesGood(a, pages, owner, swapped)
    requires forall r: PteRef :: TabHas(b, r) <==> TabHas(a, r) && r.table !in tables
    requires forall r: PteRef :: TabHas(b, r) ==> TabEntry(b, r) == TabEntry(a, r)
    requires forall f: Frame :: f in owner ==> (f in gone <==> owner[f].table in tables)
    requires forall r: PteRef :: r in swapped ==> (r in dropped <==> r.table in tables)
    ensures PagesGood(b, pages - gone, owner - gone, swapped - dropped)
  {
    hide TabHas, TabEntry;
    assert (owner - gone).Keys == pages - gone;
  }

  /** Everything that belonged to `pid`, and nothing else. */
  lemma AllDone(m: Memory, pid: Pid)
    requires Good(m)
    ensures forall t: Frame :: t in m.tableOwner ==> (t in DoneTables(m, pid, ENTRIES) <==> m.tableOwner[t].0 == pid)
    ensures forall f: Frame :: f in m.pageOwner ==>
      (f in DonePages(m, pid, ENTRIES, 0) <==> m.pageOwner[f].table in DoneTables(m, pid, ENTRIES))
    ensures forall r: PteRef :: r in m.swap ==>
      (r in DoneSwap(m, pid, ENTRIES, 0) <==> r.table in DoneTables(m, pid, ENTRIES))
  {
    forall t: Frame | t in m.tableOwner ensures m.tableOwner[t].1 < ENTRIES {
      OneTable(m, m.tableOwner[t].0, m.tableOwner[t].1, t);
    }
    hide Good;
  }

  lemma TablesLeft(tabMem: Tables, gone: set<Frame>)
    ensures forall r: PteRef :: TabHas(tabMem - gone, r) <==> TabHas(tabMem, r) && r.table !in gone
    ensures forall r: PteRef :: TabHas(tabMem - gone, r) ==> TabEntry(tabMem - gone, r) == TabEntry(tabMem, r)
  {
  }

  /** Without the process the rest of memory is in order, and holds no frame and no swap file of it:
      every frame left belongs to a live process. */
  lemma WithoutGood(m: Memory, pid: Pid)
    requires Good(m) && pid in m.dirs
    ensures Good(Without(m, pid))
    ensures forall p: Pid :: HasDir(Without(m, pid), p) <==> p != pid && HasDir(m, p)
    ensures forall p: Pid, j: nat :: p != pid && HasDir(m, p) && j < ENTRIES ==>
      Pde(Without(m, pid), p, j) == Pde(m, p, j)
  {
    hide TablesGood, PagesGood, DonePages, DoneSwap, DoneTables, Done, TabHas, TabEntry, DirHas, DirEntry;
    var n := Without(m, pid);
    AllDone(m, pid);
    DirsWithout(m.dirs, m.dirMem, pid);
    hide DirsGood;
    TablesLeft(m.tabMem, DoneTables(m, pid, ENTRIES));
    TablesWithout(m.dirs, m.dirMem, n.dirs, n.dirMem, m.tabMem.Keys, m.tableOwner, pid, DoneTables(m, pid, ENTRIES));
    PagesWithoutTables(m.tabMem, n.tabMem, m.pageMem.Keys, m.pageOwner, m.swap.Keys, DoneTables(m, pid, ENTRIES),
                       DonePages(m, pid, ENTRIES, 0), DoneSwap(m, pid, ENTRIES, 0));
    assert n.tabMem.Keys == m.tabMem.Keys - DoneTables(m, pid, ENTRIES);
    assert n.pageMem.Keys == m.pageMem.Keys - DonePages(m, pid, ENTRIES, 0);
    assert n.swap.Keys == m.swap.Keys - DoneSwap(m, pid, ENTRIES, 0);
  }

  lemma TableOwned(m: Memory, r: PteRef)
    requires Good(m) && HasPte(m, r)
    ensures r.table in m.tableOwner
    ensures Pte(m, r).present ==> Pte(m, r).base in m.pageOwner && m.pageOwner[Pte(m, r).base] == r
  {
  }

  /** The bytes behind the entries of other processes are where they were. */
  lemma WithoutBehind(m: Memory, pid: Pid, r: PteRef)
    requires Good(m) && HasPte(m, r) && m.tableOwner[r.table].0 != pid && pid in m.dirs
    ensures Behind(Without(m, pid), r) == Behind(m, r)
  {
    hide TablesGood, PagesGood, DirsGood, DonePages, DoneSwap, DoneTables, Done, TabHas, TabEntry;
    TableOwned(m, r);
    AllDone(m, pid);
    TablesLeft(m.tabMem, DoneTables(m, pid, ENTRIES));
  }

  lemma PageOwner(m: Memory, f: Frame) returns (r: PteRef)
    requires Good(m) && f in m.pageMem
    ensures HasPte(m, r) && Pte(m, r).present && Pte(m, r).base == f && r.table in m.tableOwner
  {
    r := m.pageOwner[f];
    assert PointsAtPage(m.tabMem, r, f);
  }

  /** Every page frame in use is a page of a live process. */
  lemma FramesInUse(m: Memory, f: Frame) returns (p: Pid, v: Vpn, r: PteRef)
    requires Good(m) && f in m.pageMem
    ensures HasDir(m, p) && Walk(m, p, v) == Some(r) && HasPte(m, r) && Pte(m, r).present && Pte(m, r).base == f
  {
    r := PageOwner(m, f);
    hide Good;
    p := m.tableOwner[r.table].0;
    var i := m.tableOwner[r.table].1;
    OneTable(m, p, i, r.table);
    v := i * ENTRIES + r.index;
  }
}
