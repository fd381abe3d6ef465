/** The memory a process sees: one flat array of bytes per process, given by the history of its reads
    and writes. */
module FlatMemory {
  import opened Basics
  import opened PageTables

  /** What a client can see happen. */
  datatype Event =
    | Wrote(pid: Pid, addr: nat, data: seq<Byte>)
    | Read(pid: Pid, addr: nat, data: seq<Byte>)
    | Added(pid: Pid)
    | Removed(pid: Pid)

  predicate Covers(e: Event, p: Pid, a: nat) {
    (e.Wrote? || e.Read?) && e.pid == p && e.addr <= a < e.addr + |e.data|
  }

  /** The byte of process `p` at `a` that the history has fixed, by a write or by an earlier read. */
  function Known(h: seq<Event>, p: Pid, a: nat): Option<Byte> {
    if h == [] then None else
    var e := h[|h| - 1];
    if Covers(e, p, a) then Some(e.data[a - e.addr])
    else if (e.Added? || e.Removed?) && e.pid == p then None
    else Known(h[..|h| - 1], p, a)
  }

  /** The byte `p` wrote last at `a` since it was added. */
  function LastWritten(h: seq<Event>, p: Pid, a: nat): Option<Byte> {
    if h == [] then None else
    var e := h[|h| - 1];
    if e.Wrote? && Covers(e, p, a) then Some(e.data[a - e.addr])
    else if (e.Added? || e.Removed?) && e.pid == p then None
    else LastWritten(h[..|h| - 1], p, a)
  }

  /** The events of one process. */
  function Own(h: seq<Event>, p: Pid): seq<Event> {
    if h == [] then []
    else Own(h[..|h| - 1], p) + if h[|h| - 1].pid == p then [h[|h| - 1]] else []
  }

  /** The bytes `data` read at `addr` repeat what the history had fixed. */
  ghost predicate Agrees(h: seq<Event>, p: Pid, addr: nat, data: seq<Byte>) {
    forall a: nat {:trigger Known(h, p, a)} :: addr <= a < addr + |data| && Known(h, p, a).Some? ==>
      data[a - addr] == Known(h, p, a).value
  }

  /** Every read repeated what the history had fixed. */
  ghost predicate Coherent(h: seq<Event>) {
    forall i: nat :: i < |h| && h[i].Read? ==> Agrees(h[..i], h[i].pid, h[i].addr, h[i].data)
  }

  lemma CoherentMore(h: seq<Event>, e: Event)
    requires Coherent(h)
    requires e.Read? ==> Agrees(h, e.pid, e.addr, e.data)
    ensures Coherent(h + [e])
  {
    hide Agrees;
    var g := h + [e];
    forall i: nat | i < |g| && g[i].Read?
      ensures Agrees(g[..i], g[i].pid, g[i].addr, g[i].data)
    {
      assert g[..i] == if i < |h| then h[..i] else h;
    }
  }

  lemma CoherentPrefix(h: seq<Event>, n: nat)
    requires Coherent(h) && n <= |h|
    ensures Coherent(h[..n])
  {
    hide Agrees;
    forall i: nat | i < n && h[..n][i].Read?
      ensures Agrees(h[..n][..i], h[i].pid, h[i].addr, h[i].data)
    {
      assert h[..n][..i] == h[..i];
    }
  }

  /** The flat memory changes only where the event says. */
  lemma KnownMore(h: seq<Event>, e: Event, p: Pid, a: nat)
    ensures Known(h + [e], p, a) ==
            if Covers(e, p, a) then Some(e.data[a - e.addr])
            else if (e.Added? || e.Removed?) && e.pid == p then None
            else Known(h, p, a)
  {
    assert (h + [e])[..|h|] == h;
  }

  /** No process sees what another does. */
  lemma {:induction false} Isolated(h: seq<Event>, p: Pid, a: nat)
    ensures Known(h, p, a) == Known(Own(h, p), p, a)
  {
    if h != [] {
      var e := h[|h| - 1];
      Isolated(h[..|h| - 1], p, a);
      if e.pid == p {
        KnownMore(Own(h[..|h| - 1], p), e, p, a);
      } else {
        assert Own(h, p) == Own(h[..|h| - 1], p);
      }
    }
  }

  /** Reads fix bytes that were never written, and never disagree with the last write. */
  lemma {:induction false} WritesAreKnown(h: seq<Event>, p: Pid, a: nat)
    requires Coherent(h) && LastWritten(h, p, a).Some?
    ensures Known(h, p, a) == LastWritten(h, p, a)
  {
    var n := |h| - 1;
    var e := h[n];
    if !(e.Wrote? && Covers(e, p, a)) {
      CoherentPrefix(h, n);
      WritesAreKnown(h[..n], p, a);
      if e.Read? && Covers(e, p, a) {
        assert Agrees(h[..n], e.pid, e.addr, e.data);
      }
    }
  }

  /** Every read returns the bytes its process wrote last. */
  lemma ReadsReturnLastWrites(h: seq<Event>, i: nat, a: nat)
    requires Coherent(h) && i < |h| && h[i].Read? && Covers(h[i], h[i].pid, a)
    requires LastWritten(h[..i], h[i].pid, a).Some?
    ensures h[i].data[a - h[i].addr] == LastWritten(h[..i], h[i].pid, a).value
  {
    CoherentPrefix(h, i);
    WritesAreKnown(h[..i], h[i].pid, a);
    assert Agrees(h[..i], h[i].pid, h[i].addr, h[i].data);
  }

  /** The process neither wrote byte `a` nor came or went in events `i..j`. */
  predicate Undisturbed(h: seq<Event>, i: nat, j: nat, p: Pid, a: nat)
    requires i <= j <= |h|
  {
    forall k: nat :: i <= k < j ==>
      !(h[k].Wrote? && Covers(h[k], p, a)) && !((h[k].Added? || h[k].Removed?) && h[k].pid == p)
  }

  lemma {:induction false} KnownStays(h: seq<Event>, i: nat, j: nat, p: Pid, a: nat)
    requires Coherent(h) && i < j <= |h| && Covers(h[i], p, a) && Undisturbed(h, i + 1, j, p, a)
    ensures Known(h[..j], p, a) == Some(h[i].data[a - h[i].addr])
    decreases j
  {
    assert h[..j][..j - 1] == h[..j - 1];
    if i + 1 < j {
      KnownStays(h, i, j - 1, p, a);
      if Covers(h[j - 1], p, a) {
        assert Agrees(h[..j - 1], h[j - 1].pid, h[j - 1].addr, h[j - 1].data);
      }
    }
  }

  /** Two reads of one byte agree unless its process wrote it, or was removed, in between. */
  lemma ReadsRepeat(h: seq<Event>, i: nat, j: nat, a: nat)
    requires Coherent(h) && i < j < |h| && h[i].Read? && h[j].Read? && h[j].pid == h[i].pid
    requires Covers(h[i], h[i].pid, a) && Covers(h[j], h[i].pid, a) && Undisturbed(h, i + 1, j, h[i].pid, a)
    ensures h[j].data[a - h[j].addr] == h[i].data[a - h[i].addr]
  {
    KnownStays(h, i, j, h[i].pid, a);
    assert Agrees(h[..j], h[j].pid, h[j].addr, h[j].data);
  }
}
