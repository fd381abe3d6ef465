/** The MMU: a TLB of pointers to page table entries in front of the two-level walk, with demand
    paging, and processes that come and go. */
module MmuModel {
  import opened Basics
  import opened PageTables
  import opened FlatMemory
  import opened PageRelease
  import opened MmuInvariant

  /** How many levels of the walk are missing from memory. */
  function Faults(m: Memory, p: Pid, v: Vpn): nat {
    if !HasDir(m, p) then 0
    else match Walk(m, p, v)
      case None => 2
      case Some(r) => if HasPte(m, r) && Pte(m, r).present then 0 else 1
  }

  class Mmu {
    var currPid: Pid
    var tlb: map<Vpn, PteRef>
    var mem: Memory
    var segments: map<Pid, seq<Segment>>
    var tlbMisses: nat
    var pageFaults: nat
    var segFaults: nat
    const maxProcess: nat
    /** What the processes have done, for the specification only. */
    ghost var history: seq<Event>

    ghost predicate Valid()
      reads this
    {
      && Good(mem) && mem.dirs.Keys == segments.Keys
      && TlbGood(mem, tlb, currPid)
      && Faithful(mem, history) && Coherent(history)
    }

    constructor (maxProcess: nat)
      ensures Valid() && mem.dirs == map[] && history == [] && this.maxProcess == maxProcess
      ensures tlb == map[] && tlbMisses == pageFaults == segFaults == 0
    {
      this.maxProcess := maxProcess;
      currPid, tlb, segments, history := 0, map[], map[], [];
      mem := Memory(map[], map[], map[], map[], map[], map[], map[]);
      tlbMisses, pageFaults, segFaults := 0, 0, 0;
    }

    /** The kernel may evict a page before it hands out a frame; no page and no walk is lost. */
    method AskFrame(kernel: Memory -> Grant) returns (f: Frame, stale: Page)
      requires Good(mem) && Honest(kernel)
      modifies this`mem
      ensures Good(mem) && FreeFrame(mem, f) && Preserves(old(mem), mem)
      ensures mem.dirs == old(mem).dirs && mem.dirMem == old(mem).dirMem
      ensures forall s: PteRef :: HasPte(old(mem), s) <==> HasPte(mem, s)
      ensures forall s: PteRef :: HasPte(mem, s) && !Pte(old(mem), s).present ==> Pte(mem, s) == Pte(old(mem), s)
      ensures forall s: PteRef :: HasPte(mem, s) ==> Behind(mem, s) == Behind(old(mem), s)
    {
      hide DirsGood, TablesGood, PagesGood, Preserves, HasPte, Pte, Behind, Evict;
      var g := kernel(mem);
      assert LegalGrant(mem, g);
      if g.victim.Some? {
        EvictKeeps(mem, g.victim.value);
        EvictDirs(mem, g.victim.value);
        EntriesPreserve(mem, Evict(mem, g.victim.value));
        mem := Evict(mem, g.victim.value);
      } else {
        EntriesPreserve(mem, mem);
      }
      f, stale := g.frame, g.stale;
    }

    /** The entry of the current process for a page: from the TLB, or from the walk, which gives a
        missing directory entry a fresh table.  The TLB keeps what it likes of its other entries. */
    method Translate(vpn: Vpn, kernel: Memory -> Grant, keep: set<Vpn>) returns (r: PteRef)
      requires Good(mem) && Honest(kernel) && HasDir(mem, currPid) && TlbGood(mem, tlb, currPid)
      modifies this`tlb, this`mem, this`tlbMisses, this`pageFaults
      ensures Good(mem) && Preserves(old(mem), mem) && TlbGood(mem, tlb, currPid) && mem.dirs == old(mem).dirs
      ensures HasDir(mem, currPid) && Walk(mem, currPid, vpn) == Some(r) && HasPte(mem, r)
      ensures tlbMisses == old(tlbMisses) + if vpn in old(tlb) then 0 else 1
      ensures Walk(old(mem), currPid, vpn).Some? ==> mem == old(mem) && pageFaults == old(pageFaults)
      ensures Walk(old(mem), currPid, vpn).None? ==> pageFaults == old(pageFaults) + 1 && !Pte(mem, r).present
      ensures vpn in tlb && tlb[vpn] == r
    {
      hide Good, Preserves, HasPte, Pte, Behind, HasDir, Pde, AddTable, FreeFrame;
      EntriesPreserve(mem, mem);
      if vpn in tlb {
        r := tlb[vpn];
        WalkLands(mem, currPid, vpn);
      } else {
        tlbMisses := tlbMisses + 1;
        var i := vpn / ENTRIES;
        if !Pde(mem, currPid, i).present {
          pageFaults := pageFaults + 1;
          var f, stale := AskFrame(kernel);
          SameDir(old(mem), mem, currPid, i);
          AddTableKeeps(mem, currPid, i, f);
          AddTablePreserves(mem, currPid, i, f);
          PreservesThrough(old(mem), mem, AddTable(mem, currPid, i, f));
          AddTableDirs(mem, currPid, i, f);
          mem := AddTable(mem, currPid, i, f);
          TlbStaysGood(old(mem), mem, tlb, currPid);
        }
        var pde := Pde(mem, currPid, i);
        r := PteRef(pde.base, vpn % ENTRIES);
        WalkLands(mem, currPid, vpn);
        tlb := (map v | v in tlb && v in keep :: tlb[v])[vpn := r];
      }
    }

    /** A missing page is brought in: from swap if it was saved there. */
    method PageIn(r: PteRef, kernel: Memory -> Grant)
      requires Good(mem) && Honest(kernel) && HasPte(mem, r)
      modifies this`mem, this`pageFaults
      ensures Good(mem) && Preserves(old(mem), mem) && mem.dirs == old(mem).dirs && mem.dirMem == old(mem).dirMem
      ensures HasPte(mem, r) && Usable(Pte(mem, r))
      ensures Pte(old(mem), r).present ==> mem == old(mem)
      ensures pageFaults == old(pageFaults) + if Pte(old(mem), r).present then 0 else 1
    {
      hide DirsGood, TablesGood, PagesGood, Preserves, HasPte, Pte, Behind, FreeFrame, AddPage;
      EntriesPreserve(mem, mem);
      if !Pte(mem, r).present {
        pageFaults := pageFaults + 1;
        var f, stale := AskFrame(kernel);
        var page := if r in mem.swap then mem.swap[r] else stale;
        AddPageKeeps(mem, r, f, page);
        AddPagePreserves(mem, r, f, page);
        PreservesThrough(old(mem), mem, AddPage(mem, r, f, page));
        mem := AddPage(mem, r, f, page);
      } else {
        PresentUsable(mem, r);
      }
    }

    /** The entry behind an address, or nothing exactly when the address is in no segment.  The TLB
        never serves another process, and a present entry never lacks permission. */
    method PerformCheck(addr: Address, pid: Pid, kernel: Memory -> Grant, keep: set<Vpn>) returns (r: Option<PteRef>)
      requires Valid() && Honest(kernel) && pid in mem.dirs
      modifies this`currPid, this`tlb, this`mem, this`tlbMisses, this`pageFaults, this`segFaults
      ensures Valid() && currPid == pid && mem.dirs == old(mem).dirs && Preserves(old(mem), mem)
      ensures r.Some? <==> InSegments(segments[pid], addr)
      ensures r.Some? ==> HasDir(mem, pid) && Walk(mem, pid, addr / PAGE_SIZE) == r
      ensures r.Some? ==> Evictable(mem, r.value) && Usable(Pte(mem, r.value))
      ensures r.Some? ==> addr / PAGE_SIZE in tlb && tlb[addr / PAGE_SIZE] == r.value
      ensures r.None? ==>
        mem == old(mem) && tlbMisses == old(tlbMisses) && tlb == if old(currPid) == pid then old(tlb) else map[]
      ensures segFaults == old(segFaults) + if r.None? then 1 else 0
      ensures r.Some? ==>
        tlbMisses == old(tlbMisses) + if old(currPid) == pid && addr / PAGE_SIZE in old(tlb) then 0 else 1
      ensures pageFaults == old(pageFaults) + if r.Some? then Faults(old(mem), pid, addr / PAGE_SIZE) else 0
    {
      hide Good, Preserves, TlbGood, Faithful, Coherent, HasPte, Pte, Behind, HasDir, Pde, InSegments, Walk;
      if currPid != pid {
        EmptyTlb(mem, pid);
        tlb := map[];
        currPid := pid;
      }
      EntriesPreserve(mem, mem);
      if !InSegments(segments[pid], addr) {
        segFaults := segFaults + 1;
        return None;
      }
      LiveHasDir(mem, pid);
      var vpn: Vpn := addr / PAGE_SIZE;
      var e := Translate(vpn, kernel, keep);
      ghost var mid := mem;
      PageIn(e, kernel);
      PreservesThrough(old(mem), mid, mem);
      StaysFaithful(old(mem), mem, history);
      TlbStaysGood(mid, mem, tlb, pid);
      StillWalks(mid, mem, pid, vpn);
      PresentInMemory(mem, e);
      if !(Pte(mem, e).user && Pte(mem, e).readWrite) {
        // Here the source raises a segmentation fault; a present entry never gets here.
        assert false;
      }
      r := Some(e);
    }

    /** A read within one page returns the bytes the process wrote last, or nothing when the address is
        in no segment. */
    method ReadFrom(addr: Address, pid: Pid, n: nat,
            kernel: Memory -> Grant, keep: set<Vpn>) returns (r: Option<seq<Byte>>)
      requires Valid() && Honest(kernel) && pid in mem.dirs && pid < maxProcess
      requires n + addr % PAGE_SIZE <= PAGE_SIZE
      modifies this
      ensures Valid() && currPid == pid && mem.dirs == old(mem).dirs && segments == old(segments)
      ensures r.Some? <==> InSegments(segments[pid], addr)
      ensures r.Some? ==> |r.value| == n && Agrees(old(history), pid, addr, r.value)
      ensures r.Some? ==> MarkedUsed(mem, pid, addr / PAGE_SIZE, false)
      ensures history == old(history) + if r.Some? then [Read(pid, addr, r.value)] else []
    {
      hide Good, Preserves, TlbGood, Faithful, Coherent, HasPte, Pte, Behind, HasDir, InSegments, Walk, Mark, Agrees,
        Known, MarkedUsed;
      var check := PerformCheck(addr, pid, kernel, keep);
      if check.None? { return None; }
      var e := check.value;
      var off := addr % PAGE_SIZE;
      PresentContent(mem, pid, addr / PAGE_SIZE);
      var bytes := mem.pageMem[Pte(mem, e).base][off..off + n];
      ReadFaithful(mem, history, pid, addr / PAGE_SIZE, off, bytes);
      CoherentMore(history, Read(pid, addr, bytes));
      MarkMarks(mem, pid, addr / PAGE_SIZE, false);
      MarkPreserves(mem, e, false);
      StaysFaithful(mem, Mark(mem, e, false), history + [Read(pid, addr, bytes)]);
      TlbStaysGood(mem, Mark(mem, e, false), tlb, pid);
      history := history + [Read(pid, addr, bytes)];
      mem := Mark(mem, e, false);
      r := Some(bytes);
    }

    /** A write within one page happens, or the address is in no segment and nothing does. */
    method WriteTo(addr: Address, pid: Pid, data: seq<Byte>, kernel: Memory -> Grant, keep: set<Vpn>) returns (ok: bool)
      requires Valid() && Honest(kernel) && pid in mem.dirs && pid < maxProcess
      requires |data| + addr % PAGE_SIZE <= PAGE_SIZE
      modifies this
      ensures Valid() && currPid == pid && mem.dirs == old(mem).dirs && segments == old(segments)
      ensures ok <==> InSegments(segments[pid], addr)
      ensures ok ==> MarkedUsed(mem, pid, addr / PAGE_SIZE, true)
      ensures history == old(history) + if ok then [Wrote(pid, addr, data)] else []
    {
      hide Good, Preserves, TlbGood, Faithful, Coherent, HasPte, Pte, Behind, HasDir, InSegments, Walk, Content, Mark,
        Store, Splice, MarkedUsed;
      var check := PerformCheck(addr, pid, kernel, keep);
      if check.None? { return false; }
      var e := check.value;
      var v: Vpn := addr / PAGE_SIZE;
      var off := addr % PAGE_SIZE;
      StoreContent(mem, pid, v, off, data);
      var stored := Store(mem, e, off, data);
      StoreTables(mem, e, off, data);
      TlbSameWalks(mem, stored, tlb, pid);
      WriteFaithful(mem, stored, history, pid, v, off, data);
      CoherentMore(history, Wrote(pid, addr, data));
      MarkMarks(stored, pid, v, true);
      MarkPreserves(stored, e, true);
      StaysFaithful(stored, Mark(stored, e, true), history + [Wrote(pid, addr, data)]);
      TlbStaysGood(stored, Mark(stored, e, true), tlb, pid);
      history := history + [Wrote(pid, addr, data)];
      mem := stored;
      mem := Mark(mem, e, true);
      ok := true;
    }

    /** A directory and a table for its first entry. */
    method AddTables(pid: Pid, kernel: Memory -> Grant) returns (t: Frame)
      requires Good(mem) && Honest(kernel) && pid !in mem.dirs
      modifies this`mem
      ensures Good(mem) && Preserves(old(mem), mem) && mem.dirs.Keys == old(mem).dirs.Keys + {pid}
      ensures OnlyTable(mem, pid, t) && EmptyTable(mem, t)
    {
      hide Good, Preserves, HasPte, Pte, Behind, HasDir, Pde, Walk, Content, FreeFrame, AddDir, AddTable, OnlyTable,
        EmptyTable;
      var d, _ := AskFrame(kernel);
      ghost var m0, m1 := old(mem), mem;
      AddDirKeeps(mem, pid, d);
      AddDirPreserves(mem, pid, d);
      AddDirDirs(mem, pid, d);
      mem := AddDir(mem, pid, d);
      PreservesThrough(m0, m1, mem);
      ghost var m2 := mem;
      var stale;
      t, stale := AskFrame(kernel);
      ghost var m3 := mem;
      PreservesThrough(m0, m2, mem);
      NoDirEntries(m2, mem, pid);
      AddTableKeeps(mem, pid, 0, t);
      AddTablePreserves(mem, pid, 0, t);
      AddTableDirs(mem, pid, 0, t);
      FirstTable(mem, pid, t);
      FreshHolds(mem, pid, 0, t);
      mem := AddTable(mem, pid, 0, t);
      PreservesThrough(m0, m3, mem);
    }

    /** Entries 1 and 2 of the new table get a page each. */
    method AddTestingPages(pid: Pid, t: Frame, kernel: Memory -> Grant)
      requires Good(mem) && Honest(kernel) && OnlyTable(mem, pid, t) && EmptyTable(mem, t)
      modifies this`mem
      ensures Good(mem) && Preserves(old(mem), mem) && mem.dirs == old(mem).dirs && OnlyTable(mem, pid, t)
      ensures forall j: nat :: j < ENTRIES ==> (Behind(mem, PteRef(t, j)).Some? <==> j == 1 || j == 2)
    {
      hide Good, Preserves, HasPte, Pte, Behind, HasDir, Pde, Walk, Content, FreeFrame, AddPage, OnlyTable;
      ghost var m0 := mem;
      EntriesPreserve(mem, mem);
      var i := 1;
      while i < 3
        invariant 1 <= i <= 3
        invariant Good(mem) && Preserves(m0, mem) && mem.dirs == m0.dirs && OnlyTable(mem, pid, t)
        invariant forall j: nat :: j < ENTRIES ==> HasPte(mem, PteRef(t, j))
        invariant forall j: nat :: j < ENTRIES && !(1 <= j < i) ==> !Pte(mem, PteRef(t, j)).present
        invariant forall j: nat :: j < ENTRIES ==> (Behind(mem, PteRef(t, j)).Some? <==> 1 <= j < i)
      {
        ghost var was := mem;
        var f, stale := AskFrame(kernel);
        ghost var now := mem;
        PreservesThrough(m0, was, mem);
        NoBytesNoSwap(mem, PteRef(t, i));
        AddPageKeeps(mem, PteRef(t, i), f, stale);
        AddPagePreserves(mem, PteRef(t, i), f, stale);
        OnlyTableStays(was, AddPage(mem, PteRef(t, i), f, stale), pid, t);
        mem := AddPage(mem, PteRef(t, i), f, stale);
        PreservesThrough(m0, now, mem);
        i := i + 1;
      }
    }

    /** A new process has two pages of testing memory and no other page. */
    method AddProcess(pid: Pid, kernel: Memory -> Grant)
      requires Valid() && Honest(kernel) && pid < maxProcess && pid !in mem.dirs
      modifies this`mem, this`segments, this`history
      ensures Valid() && mem.dirs.Keys == old(mem).dirs.Keys + {pid}
      ensures segments == old(segments)[pid := FIRST_SEGMENTS] && history == old(history) + [Added(pid)]
      ensures Preserves(old(mem), mem)
      ensures HasDir(mem, pid) && (forall v: Vpn :: Walk(mem, pid, v).Some? <==> v < ENTRIES)
      ensures forall v: Vpn :: Content(mem, pid, v).Some? <==> v == 1 || v == 2
    {
      hide Good, Preserves, TlbGood, Faithful, Coherent, Behind, HasDir, Walk, Content, OnlyTable, EmptyTable;
      ghost var m0 := mem;
      var t := AddTables(pid, kernel);
      ghost var m1 := mem;
      segments := segments[pid := FIRST_SEGMENTS];
      AddTestingPages(pid, t, kernel);
      PreservesThrough(m0, m1, mem);
      OnlyTableWalks(mem, pid, t);
      LiveHasDir(mem, pid);
      StaysFaithful(m0, mem, history);
      OthersFaithful(mem, mem, history, Added(pid));
      CoherentMore(history, Added(pid));
      TlbStaysGood(m0, mem, tlb, currPid);
      history := history + [Added(pid)];
    }

    /** The inner loop: the pages and swap files behind one table. */
    method ReleaseEntries(ghost m0: Memory, i: nat, pid: Pid)
      requires Good(m0) && HasDir(m0, pid) && i < ENTRIES && Pde(m0, pid, i).present
      requires mem == Released(m0, pid, i, 0)
      modifies this`mem
      ensures mem == Released(m0, pid, i, ENTRIES)
    {
      hide Good, HasPte, Pte, HasDir, Pde, Released;
      ReleasedDir(m0, pid, i, 0);
      var t := Pde(mem, pid, i).base;
      var j := 0;
      while j < ENTRIES
        invariant 0 <= j <= ENTRIES && mem == Released(m0, pid, i, j)
      {
        var r := PteRef(t, j);
        ReleaseNext(m0, pid, i, j);
        if Pte(mem, r).present {
          mem := ReturnPage(mem, Pte(mem, r).base);
        }
        mem := RemoveSwap(mem, r);
        j := j + 1;
      }
    }

    /** The outer loop: the tables of the directory. */
    method ReleaseTables(pid: Pid)
      requires Good(mem) && HasDir(mem, pid)
      modifies this`mem
      ensures mem == Released(old(mem), pid, ENTRIES, 0)
    {
      hide Good, HasDir, Pde, Released;
      ghost var m0 := mem;
      ReleaseNothing(mem, pid);
      var i := 0;
      while i < ENTRIES
        invariant 0 <= i <= ENTRIES && mem == Released(m0, pid, i, 0)
      {
        ReleasedDir(m0, pid, i, 0);
        ReleaseTable(m0, pid, i);
        if Pde(mem, pid, i).present {
          var table := Pde(mem, pid, i).base;
          ReleaseEntries(m0, i, pid);
          mem := ReturnTable(mem, table);
        }
        i := i + 1;
      }
    }

    /** Every page, swap file, table and the directory of the process go back; nothing else does. */
    method RemoveProcess(pid: Pid)
      requires Valid() && pid < maxProcess
      modifies this`mem, this`segments, this`tlb, this`history
      ensures Valid() && mem == if pid in old(mem).dirs then Without(old(mem), pid) else old(mem)
      ensures segments == old(segments) - {pid} && history == old(history) + [Removed(pid)]
      ensures tlb == if currPid == pid then map[] else old(tlb)
      ensures pid !in mem.dirs
    {
      hide Good, TlbGood, Faithful, Coherent, HasPte, Pte, Behind, HasDir, Pde, Walk, Content, Released, ReleaseEntry,
        Without;
      ghost var m0 := mem;
      if pid in mem.dirs {
        LiveHasDir(mem, pid);
        ReleaseTables(pid);
        ReleasedDir(m0, pid, ENTRIES, 0);
        mem := ReturnDir(mem, pid);
        WithoutDir(m0, pid);
        WithoutGood(m0, pid);
        WithoutOthers(m0, pid);
        OthersFaithful(m0, mem, history, Removed(pid));
        if currPid != pid {
          TlbOthers(m0, mem, tlb, currPid, pid);
        }
      } else {
        OthersFaithful(mem, mem, history, Removed(pid));
      }
      CoherentMore(history, Removed(pid));
      history := history + [Removed(pid)];
      segments := segments - {pid};
      if currPid == pid {
        EmptyTlb(mem, pid);
        tlb := map[];
      }
    }
  }
}
