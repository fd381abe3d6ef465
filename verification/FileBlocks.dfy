/** Which data block holds which part of which file: direct and indirect slots, and the rule that no
    block is in two slots. */
module FileBlocks {

  const UNASSIGNED: int := -1

  /** Bytes in a block, direct slots and indirect slots of a file, blocks on the disk, and bytes of a
      directory entry. */
  datatype Geometry = Geometry(blockSize: nat, direct: nat, indirect: nat, blocks: nat, entry: nat)

  type Inumber = nat

  datatype Inode = Inode(size: nat, isDirectory: bool, direct: seq<int>, indirect: int)

  /** The inodes, the block numbers kept in indirect blocks, and the blocks in use. */
  datatype Layout = Layout(inodes: map<Inumber, Inode>, tables: map<int, seq<int>>, used: set<int>)

  /** Slots `0..direct + indirect` of a file hold its data blocks in order; the slot after them holds
      its indirect block. */
  function Slots(g: Geometry): nat {
    g.direct + g.indirect
  }

  /** The block in a slot, or UNASSIGNED. */
  function Ref(g: Geometry, m: Layout, n: Inumber, i: nat): int {
    if n !in m.inodes then UNASSIGNED
    else
      var node := m.inodes[n];
      if i < g.direct then if i < |node.direct| then node.direct[i] else UNASSIGNED
      else if i == Slots(g) then node.indirect
      else if node.indirect in m.tables && i - g.direct < |m.tables[node.indirect]| then
        m.tables[node.indirect][i - g.direct]
      else UNASSIGNED
  }

  predicate Shaped(g: Geometry, m: Layout, n: Inumber) {
    && n in m.inodes && |m.inodes[n].direct| == g.direct
    && (m.inodes[n].indirect != UNASSIGNED ==>
          m.inodes[n].indirect in m.tables && |m.tables[m.inodes[n].indirect]| == g.indirect)
  }

  ghost predicate OneSlotEach(g: Geometry, m: Layout) {
    forall n: Inumber, i: nat, p: Inumber, j: nat ::
      Ref(g, m, n, i) != UNASSIGNED && Ref(g, m, n, i) == Ref(g, m, p, j) ==> n == p && i == j
  }

  /** Every file has its slots; assigned blocks are in use; no block is in two slots. */
  ghost predicate Good(g: Geometry, m: Layout) {
    && (forall n: Inumber :: n in m.inodes ==> Shaped(g, m, n))
    && UNASSIGNED !in m.tables
    && (forall n: Inumber, i: nat :: Ref(g, m, n, i) != UNASSIGNED ==>
          0 <= Ref(g, m, n, i) < g.blocks && Ref(g, m, n, i) in m.used)
    && OneSlotEach(g, m)
  }

  /** Put block `b` in a slot that is empty. */
  function SetRef(g: Geometry, m: Layout, n: Inumber, i: nat, b: int): Layout
    requires Shaped(g, m, n) && i <= Slots(g)
    requires g.direct <= i < Slots(g) ==> m.inodes[n].indirect != UNASSIGNED
  {
    var node := m.inodes[n];
    var more := m.(used := m.used + {b});
    if i < g.direct then more.(inodes := m.inodes[n := node.(direct := node.direct[i := b])])
    else if i == Slots(g) then
      more.(inodes := m.inodes[n := node.(indirect := b)], tables := m.tables[b := seq(g.indirect, _ => UNASSIGNED)])
    else more.(tables := m.tables[node.indirect := m.tables[node.indirect][i - g.direct := b]])
  }

  lemma OneTableEach(g: Geometry, m: Layout, n: Inumber, p: Inumber)
    requires Good(g, m) && n in m.inodes && p in m.inodes && n != p && m.inodes[n].indirect != UNASSIGNED
    ensures m.inodes[p].indirect != m.inodes[n].indirect
  {
    assert Ref(g, m, n, Slots(g)) == m.inodes[n].indirect;
    assert Ref(g, m, p, Slots(g)) == m.inodes[p].indirect;
  }

  /** Exactly that slot changes. */
  lemma SetRefAt(g: Geometry, m: Layout, n: Inumber, i: nat, b: int, p: Inumber, j: nat)
    requires Good(g, m) && n in m.inodes && i <= Slots(g) && 0 <= b < g.blocks && b !in m.used
    requires g.direct <= i < Slots(g) ==> m.inodes[n].indirect != UNASSIGNED
    requires Ref(g, m, n, i) == UNASSIGNED
    ensures Ref(g, SetRef(g, m, n, i, b), p, j) == if p == n && j == i then b else Ref(g, m, p, j)
  {
    assert Shaped(g, m, n);
    if p in m.inodes {
      assert Ref(g, m, p, Slots(g)) == m.inodes[p].indirect;
      if p != n && m.inodes[n].indirect != UNASSIGNED {
        OneTableEach(g, m, n, p);
      }
    }
    hide Good;
  }

  predicate SameFile(a: Inode, b: Inode) {
    a.size == b.size && a.isDirectory == b.isDirectory
  }

  /** Only `n` may have got blocks; no slot lost its block and no file changed otherwise. */
  ghost predicate Grows(g: Geometry, m: Layout, after: Layout, n: Inumber) {
    && after.inodes.Keys == m.inodes.Keys
    && (forall p: Inumber :: p in m.inodes ==> SameFile(m.inodes[p], after.inodes[p]))
    && (forall p: Inumber, j: nat :: Ref(g, m, p, j) != UNASSIGNED || p != n ==> Ref(g, after, p, j) == Ref(g, m, p, j))
  }

  lemma GrowsThrough(g: Geometry, a: Layout, b: Layout, c: Layout, n: Inumber)
    requires Grows(g, a, b, n) && Grows(g, b, c, n)
    ensures Grows(g, a, c, n)
  {
    hide Ref;
  }

  lemma GrowsNot(g: Geometry, m: Layout, n: Inumber)
    ensures Grows(g, m, m, n)
  {
  }

  lemma SetRefShaped(g: Geometry, m: Layout, n: Inumber, i: nat, b: int)
    requires Good(g, m) && n in m.inodes && i <= Slots(g) && 0 <= b < g.blocks && b !in m.used
    requires g.direct <= i < Slots(g) ==> m.inodes[n].indirect != UNASSIGNED
    ensures var after := SetRef(g, m, n, i, b);
      && after.inodes.Keys == m.inodes.Keys && after.used == m.used + {b} && UNASSIGNED !in after.tables
      && (forall p: Inumber :: p in m.inodes ==> Shaped(g, after, p))
      && (forall p: Inumber :: p in m.inodes ==> SameFile(m.inodes[p], after.inodes[p]))
  {
    hide Ref, OneSlotEach;
  }

  lemma SetRefKeeps(g: Geometry, m: Layout, n: Inumber, i: nat, b: int)
    requires Good(g, m) && n in m.inodes && i <= Slots(g) && 0 <= b < g.blocks && b !in m.used
    requires g.direct <= i < Slots(g) ==> m.inodes[n].indirect != UNASSIGNED
    requires Ref(g, m, n, i) == UNASSIGNED
    ensures Good(g, SetRef(g, m, n, i, b)) && Grows(g, m, SetRef(g, m, n, i, b), n)
    ensures forall p: Inumber, j: nat ::
      Ref(g, SetRef(g, m, n, i, b), p, j) == if p == n && j == i then b else Ref(g, m, p, j)
  {
    var after := SetRef(g, m, n, i, b);
    forall p: Inumber, j: nat
      ensures Ref(g, after, p, j) == if p == n && j == i then b else Ref(g, m, p, j)
    {
      SetRefAt(g, m, n, i, b, p, j);
    }
    SetRefShaped(g, m, n, i, b);
    hide Ref, SetRef, Shaped, SameFile;
  }

  // ---- free blocks ------------------------------------------------------------------------------

  function FreeBlocks(g: Geometry, used: set<int>): set<int> {
    set b | 0 <= b < g.blocks && b !in used
  }

  /** How many blocks can still be handed out. */
  function Spare(g: Geometry, m: Layout): nat {
    |FreeBlocks(g, m.used)|
  }

  /** A block allocator: an unused block of the disk, or UNASSIGNED when there is none. */
  ghost predicate Honest(g: Geometry, pick: set<int> -> int) {
    forall used: set<int> ::
      if FreeBlocks(g, used) == {} then pick(used) == UNASSIGNED else pick(used) in FreeBlocks(g, used)
  }

  lemma PickOne(g: Geometry, m: Layout, pick: set<int> -> int)
    requires Honest(g, pick)
    ensures pick(m.used) == UNASSIGNED <==> Spare(g, m) == 0
    ensures pick(m.used) != UNASSIGNED ==> 0 <= pick(m.used) < g.blocks && pick(m.used) !in m.used
  {
    assert Spare(g, m) == 0 <==> FreeBlocks(g, m.used) == {};
  }

  lemma SpareDrops(g: Geometry, m: Layout, n: Inumber, i: nat, b: int)
    requires Shaped(g, m, n) && i <= Slots(g) && (g.direct <= i < Slots(g) ==> m.inodes[n].indirect != UNASSIGNED)
    requires 0 <= b < g.blocks && b !in m.used
    ensures Spare(g, SetRef(g, m, n, i, b)) + 1 == Spare(g, m)
  {
    assert FreeBlocks(g, m.used + {b}) == FreeBlocks(g, m.used) - {b};
  }

  /** How many blocks slot `i` still needs: one for itself and one for a missing indirect block. */
  function Need(g: Geometry, m: Layout, n: Inumber, i: nat): nat {
    if Ref(g, m, n, i) != UNASSIGNED then 0
    else if i >= g.direct && Ref(g, m, n, Slots(g)) == UNASSIGNED then 2
    else 1
  }

  /** Slot `i` of file `n`, and the slot of the indirect block it depends on, may have been filled; no
      other slot of any file changed. */
  ghost predicate OnlySlot(g: Geometry, m: Layout, after: Layout, n: Inumber, i: nat) {
    forall p: Inumber, j: nat :: Ref(g, after, p, j) != Ref(g, m, p, j) ==>
      p == n && Ref(g, m, p, j) == UNASSIGNED && (j == i || (j == Slots(g) && i >= g.direct))
  }

  /** Empty ones among the first `count` slots. */
  function Missing(g: Geometry, m: Layout, n: Inumber, count: nat): nat {
    if count == 0 then 0
    else Missing(g, m, n, count - 1) + if Ref(g, m, n, count - 1) == UNASSIGNED then 1 else 0
  }

  /** How many blocks a file still needs for its first `count` slots. */
  function Shortfall(g: Geometry, m: Layout, n: Inumber, count: nat): nat {
    Missing(g, m, n, count) + if count > g.direct && Ref(g, m, n, Slots(g)) == UNASSIGNED then 1 else 0
  }

  lemma {:induction false} ShortfallGrows(g: Geometry, m: Layout, n: Inumber, a: nat, b: nat)
    requires a <= b
    ensures Shortfall(g, m, n, a) <= Shortfall(g, m, n, b)
    decreases b
  {
    hide Ref;
    if a < b {
      ShortfallGrows(g, m, n, a, b - 1);
    }
  }
}
