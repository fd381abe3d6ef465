/** Memory as bytes, and block headers as the 32 bytes they occupy in it. */
module AllocBytes {
  import opened Basics
  import opened LittleEndian
  import opened AllocLayout

  type Memory = map<nat, Byte>

  /** struct metadata; null pointers are address 0. */
  datatype Meta = Meta(size: nat, next: nat, prev: nat, free: bool)

  lemma WordIsEightBytes()
    ensures Power256(8) == WORD && Power256(4) > 1
  {
    assert Power256(2) == 65536;
    assert Power256(4) == 4294967296;
    assert Power256(6) == 281474976710656;
  }

  function DecodeMeta(bs: seq<Byte>): Meta
    requires |bs| == HDR
  {
    Meta(Decode(bs[..8]), Decode(bs[8..16]), Decode(bs[16..24]), Decode(bs[24..28]) != 0)
  }

  predicate Mapped(mem: Memory, a: nat, n: nat) {
    forall x :: a <= x < a + n ==> x in mem
  }

  function Read(mem: Memory, a: nat, n: nat): (bs: seq<Byte>)
    requires Mapped(mem, a, n)
    ensures |bs| == n
  {
    seq(n, i requires 0 <= i < n => mem[a + i])
  }

  function Write(mem: Memory, a: nat, bs: seq<Byte>): (m: Memory)
    ensures m.Keys == mem.Keys
  {
    map x | x in mem :: if a <= x < a + |bs| then bs[x - a] else mem[x]
  }

  /** The bytes at `a` are mapped and read `bytes`. */
  predicate Contains(mem: Memory, a: nat, bytes: seq<Byte>) {
    Mapped(mem, a, |bytes|) && Read(mem, a, |bytes|) == bytes
  }

  lemma ContainsStays(mem: Memory, after: Memory, a: nat, bytes: seq<Byte>)
    requires Contains(mem, a, bytes)
    requires forall x: nat :: a <= x < a + |bytes| ==> x in after && after[x] == mem[x]
    ensures Contains(after, a, bytes)
  {
    assert Read(after, a, |bytes|) == Read(mem, a, |bytes|);
  }

  function MetaAt(mem: Memory, a: nat): Meta
    requires Mapped(mem, a, HDR)
  {
    DecodeMeta(Read(mem, a, HDR))
  }

  /** Where a field lies in the header. */
  datatype Field = Size | Next | Prev | Free

  function Offset(f: Field): nat {
    match f case Size => 0 case Next => 8 case Prev => 16 case Free => 24
  }

  function Width(f: Field): nat {
    if f.Free? then 4 else 8
  }

  function Updated(m: Meta, f: Field, v: nat): Meta {
    match f
    case Size => m.(size := v)
    case Next => m.(next := v)
    case Prev => m.(prev := v)
    case Free => m.(free := v != 0)
  }

  function StoreField(mem: Memory, a: nat, f: Field, v: nat): (m: Memory)
    ensures m.Keys == mem.Keys
  {
    Write(mem, a + Offset(f), Encode(v, Width(f)))
  }

  /** A write does not show in a part of a range it does not touch. */
  lemma ReadPart(mem: Memory, a: nat, n: nat, at: nat, bytes: seq<Byte>, lo: nat, hi: nat)
    requires Mapped(mem, a, n) && lo <= hi <= n && Mapped(Write(mem, at, bytes), a, n)
    ensures a + hi <= at || at + |bytes| <= a + lo ==>
      Read(Write(mem, at, bytes), a, n)[lo..hi] == Read(mem, a, n)[lo..hi]
    ensures a + lo == at && hi == lo + |bytes| ==> Read(Write(mem, at, bytes), a, n)[lo..hi] == bytes
  {
  }

  lemma StoreFieldHere(mem: Memory, a: nat, f: Field, v: nat)
    requires Mapped(mem, a, HDR) && v < Power256(Width(f))
    ensures MetaAt(StoreField(mem, a, f, v), a) == Updated(MetaAt(mem, a), f, v)
  {
    hide Encode, Decode, Power256, Read, Write;
    var at, bytes := a + Offset(f), Encode(v, Width(f));
    DecodeEncode(v, Width(f));
    ReadPart(mem, a, HDR, at, bytes, 0, 8);
    ReadPart(mem, a, HDR, at, bytes, 8, 16);
    ReadPart(mem, a, HDR, at, bytes, 16, 24);
    ReadPart(mem, a, HDR, at, bytes, 24, 28);
    var was, now := Read(mem, a, HDR), Read(Write(mem, at, bytes), a, HDR);
    assert now[..8] == now[0..8] && was[..8] == was[0..8];
  }

  /** Storing a field changes that field of that header, no header that does not overlap it, and no
      byte outside it. */
  lemma StoreFieldMeaning(mem: Memory, a: nat, f: Field, v: nat)
    requires Mapped(mem, a, HDR) && v < Power256(Width(f))
    ensures MetaAt(StoreField(mem, a, f, v), a) == Updated(MetaAt(mem, a), f, v)
    ensures forall b: nat :: Mapped(mem, b, HDR) && (b + HDR <= a || a + HDR <= b) ==>
      MetaAt(StoreField(mem, a, f, v), b) == MetaAt(mem, b)
    ensures forall x :: x in mem && !(a <= x < a + HDR) ==> StoreField(mem, a, f, v)[x] == mem[x]
  {
    StoreFieldHere(mem, a, f, v);
    hide Encode, DecodeMeta, Power256;
    var after := StoreField(mem, a, f, v);
    assert forall b: nat :: Mapped(mem, b, HDR) && (b + HDR <= a || a + HDR <= b) ==>
      Read(after, b, HDR) == Read(mem, b, HDR);
  }

  // ---- lists in memory --------------------------------------------------------------------------

  predicate AllMapped(mem: Memory, at: seq<nat>) {
    forall i :: 0 <= i < |at| ==> Mapped(mem, at[i], HDR)
  }

  /** Headers at increasing addresses that do not overlap. */
  predicate Spread(at: seq<nat>) {
    forall i, j :: 0 <= i < j < |at| ==> at[i] + HDR <= at[j]
  }

  function MetasAt(mem: Memory, at: seq<nat>): (ms: seq<Meta>)
    requires AllMapped(mem, at)
    ensures |ms| == |at|
  {
    seq(|at|, i requires 0 <= i < |at| => MetaAt(mem, at[i]))
  }

  predicate InHeader(at: seq<nat>, x: int) {
    exists i :: 0 <= i < |at| && at[i] <= x < at[i] + HDR
  }

  /** Writing all four fields of a header. */
  function StoreHeader(mem: Memory, a: nat, m: Meta): (r: Memory)
    ensures r.Keys == mem.Keys
  {
    StoreField(StoreField(StoreField(StoreField(mem, a, Size, m.size), a, Next, m.next), a, Prev, m.prev),
      a, Free, if m.free then 1 else 0)
  }

  /** Storing a field of one header, seen on the whole list. */
  lemma StoreFieldInList(mem: Memory, at: seq<nat>, i: nat, f: Field, v: nat)
    requires AllMapped(mem, at) && Spread(at) && i < |at| && v < Power256(Width(f))
    ensures AllMapped(StoreField(mem, at[i], f, v), at)
    ensures MetasAt(StoreField(mem, at[i], f, v), at) == MetasAt(mem, at)[i := Updated(MetasAt(mem, at)[i], f, v)]
    ensures forall x: nat :: x in mem && !InHeader(at, x) ==> StoreField(mem, at[i], f, v)[x] == mem[x]
  {
    assert Mapped(mem, at[i], HDR);
    StoreFieldMeaning(mem, at[i], f, v);
    var after := StoreField(mem, at[i], f, v);
    hide MetaAt, StoreField;
    assert AllMapped(after, at);
    forall j | 0 <= j < |at| && j != i
      ensures MetaAt(after, at[j]) == MetaAt(mem, at[j])
    {
      assert Mapped(mem, at[j], HDR);
    }
  }

  lemma StoreHeaderInList(mem: Memory, at: seq<nat>, i: nat, m: Meta)
    requires AllMapped(mem, at) && Spread(at) && i < |at|
    requires m.size < WORD && m.next < WORD && m.prev < WORD
    ensures AllMapped(StoreHeader(mem, at[i], m), at)
    ensures MetasAt(StoreHeader(mem, at[i], m), at) == MetasAt(mem, at)[i := m]
    ensures forall x: nat :: x in mem && !InHeader(at, x) ==> StoreHeader(mem, at[i], m)[x] == mem[x]
  {
    WordIsEightBytes();
    hide MetaAt, StoreField, Spread, InHeader, MetasAt, AllMapped, Power256;
    var m1 := StoreField(mem, at[i], Size, m.size);
    StoreFieldInList(mem, at, i, Size, m.size);
    var m2 := StoreField(m1, at[i], Next, m.next);
    StoreFieldInList(m1, at, i, Next, m.next);
    var m3 := StoreField(m2, at[i], Prev, m.prev);
    StoreFieldInList(m2, at, i, Prev, m.prev);
    StoreFieldInList(m3, at, i, Free, if m.free then 1 else 0);
  }

  function Addrs(bs: seq<Block>): (at: seq<nat>)
    ensures |at| == |bs| && forall i :: 0 <= i < |bs| ==> at[i] == bs[i].addr
  {
    seq(|bs|, i requires 0 <= i < |bs| => bs[i].addr)
  }

  /** The header block `i` must have. */
  function Header(bs: seq<Block>, i: nat): Meta
    requires i < |bs|
  {
    Meta(bs[i].size, if i + 1 < |bs| then bs[i + 1].addr else 0, if i > 0 then bs[i - 1].addr else 0, bs[i].free)
  }

  function Headers(bs: seq<Block>): (ms: seq<Meta>)
    ensures |ms| == |bs| && forall i :: 0 <= i < |bs| ==> ms[i] == Header(bs, i)
  {
    seq(|bs|, i requires 0 <= i < |bs| => Header(bs, i))
  }

  /** The headers in memory are the doubly linked list of the blocks. */
  predicate Linked(mem: Memory, bs: seq<Block>) {
    AllMapped(mem, Addrs(bs)) && MetasAt(mem, Addrs(bs)) == Headers(bs)
  }

  lemma LinkedAt(mem: Memory, bs: seq<Block>, i: nat)
    requires Linked(mem, bs) && i < |bs|
    ensures Mapped(mem, bs[i].addr, HDR) && MetaAt(mem, bs[i].addr) == Header(bs, i)
  {
    assert Addrs(bs)[i] == bs[i].addr;
    assert MetasAt(mem, Addrs(bs))[i] == Headers(bs)[i];
  }

  /** Byte `x` belongs to a live payload. */
  ghost predicate Owned(bs: seq<Block>, x: int) {
    exists i :: 0 <= i < |bs| && !bs[i].free && Payload(bs[i]) <= x < End(bs[i])
  }

  lemma OrderSpreads(bs: seq<Block>)
    requires InOrder(bs)
    ensures Spread(Addrs(bs))
  {
    forall i, j | 0 <= i < j < |bs|
      ensures Addrs(bs)[i] + HDR <= Addrs(bs)[j]
    {
      PairInOrder(bs, i, j);
    }
  }

  predicate HeaderWithin(b: Block, a: nat) {
    b.addr <= a && a + HDR <= End(b) && (a == b.addr || b.free)
  }

  predicate HasHome(bs: seq<Block>, a: nat) {
    exists k :: 0 <= k < |bs| && HeaderWithin(bs[k], a)
  }

  /** Headers of any blocks that were in the heap, or lie in a free block, are in no live payload. */
  lemma HeadersNotOwned(bs: seq<Block>, at: seq<nat>)
    requires InOrder(bs)
    requires forall i :: 0 <= i < |at| ==> HasHome(bs, at[i])
    ensures forall x :: Owned(bs, x) ==> !InHeader(at, x)
  {
    forall x, i | Owned(bs, x) && 0 <= i < |at|
      ensures !(at[i] <= x < at[i] + HDR)
    {
      var k :| 0 <= k < |bs| && HeaderWithin(bs[k], at[i]);
      var j :| 0 <= j < |bs| && !bs[j].free && Payload(bs[j]) <= x < End(bs[j]);
      PairInOrder(bs, j, k);
      PairInOrder(bs, k, j);
    }
  }
}
