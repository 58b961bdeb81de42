/** The file system on the disk: superblock geometry, free map, inodes and the blocks they own. */
module FsLayout {
  import opened Blocks

  const NDIRECT: nat := 12
  const NINDIRECT: nat := 128
  const MAXFILE: nat := 140
  const NSLOT: nat := 141        // 12 direct blocks, the indirect block, its 128 entries
  const IPB: nat := 8            // BSIZE / sizeof(struct dinode)

  /** What the superblock says; the blocks from datastart on hold file contents. */
  datatype Geometry = Geometry(size: nat, ninodes: nat, inodestart: nat, bmapstart: nat, datastart: nat) {
    predicate Valid() {
      && 0 < inodestart && inodestart + ninodes / IPB < bmapstart
      && bmapstart + size / BITS < datastart <= size < UINT
    }
    /** BBLOCK */
    function BBlock(b: nat): nat { b / BITS + bmapstart }
    /** IBLOCK */
    function IBlock(i: nat): nat { i / IPB + inodestart }
  }

  datatype Inode = Inode(kind: nat, major: nat, minor: nat, nlink: nat, size: nat, addrs: seq<Word>) {
    predicate Valid() {
      && kind < 0x1_0000 && major < 0x1_0000 && minor < 0x1_0000 && nlink < 0x1_0000
      && size <= MAXFILE * BSIZE && |addrs| == NDIRECT + 1
    }
  }

  /** An inode not in use, as a block of zeros holds it. */
  function NoInode(): (ino: Inode)
    ensures ino.Valid()
  {
    Inode(0, 0, 0, 0, 0, seq(NDIRECT + 1, _ => 0))
  }

  /** Is block b marked in use? */
  predicate InUse(g: Geometry, d: seq<Block>, b: nat)
    requires g.Valid() && |d| == g.size && b < g.size
  {
    BlockBit(d[g.BBlock(b)], b % BITS)
  }

  /** Slot s of an inode: a direct block, the indirect block (slot NDIRECT), or one of its entries; 0 means none. */
  function Slot(d: seq<Block>, ino: Inode, s: nat): nat
    requires ino.Valid() && s < NSLOT
  {
    if s <= NDIRECT then ino.addrs[s]
    else if ino.addrs[NDIRECT] == 0 || ino.addrs[NDIRECT] >= |d| then 0
    else WordAt(d[ino.addrs[NDIRECT]], s - NDIRECT - 1)
  }

  /** The slot that holds the address of a file's bn-th block. */
  function DataSlot(bn: nat): nat { if bn < NDIRECT then bn else bn + 1 }

  predicate Inodes(g: Geometry, inodes: seq<Inode>) {
    |inodes| == g.ninodes && forall i | 0 <= i < |inodes| :: inodes[i].Valid()
  }

  /** Block ownership. `own` names the inode and slot of every owned block, so no block is owned twice;
      `extra` are blocks taken from the free map and not yet (or no longer) in any slot. */
  ghost predicate Owned(g: Geometry, d: seq<Block>, inodes: seq<Inode>, own: map<nat, (nat, nat)>, extra: set<nat>)
  {
    && g.Valid() && |d| == g.size && Inodes(g, inodes)
    && (forall i, s | 0 <= i < |inodes| && 0 <= s < NSLOT ::
          var b := Slot(d, inodes[i], s); b != 0 ==> b in own && own[b] == (i, s))
    && (forall b | b in own ::
          g.datastart <= b < g.size && own[b].0 < |inodes| && own[b].1 < NSLOT
            && Slot(d, inodes[own[b].0], own[b].1) == b)
    && (forall b | b in extra :: g.datastart <= b < g.size && b !in own)
    && (forall b | 0 <= b < g.size :: InUse(g, d, b) <==> b < g.datastart || b in own || b in extra)
  }

  /** Every block that has changed is among the logged ones, which only grow. */
  ghost predicate Traced(d0: seq<Block>, lg0: set<nat>, d: seq<Block>, lg: set<nat>) {
    |d| == |d0| && lg0 <= lg && forall x | 0 <= x < |d0| && d[x] != d0[x] :: x in lg
  }

  lemma TracedMore(d0: seq<Block>, lg0: set<nat>, d: seq<Block>, lg: set<nat>, e: seq<Block>, lg': set<nat>)
    requires Traced(d0, lg0, d, lg) && Traced(d, lg, e, lg')
    ensures Traced(d0, lg0, e, lg')
  {
  }

  /** No block is free. */
  ghost predicate Full(g: Geometry, d: seq<Block>) {
    g.Valid() && |d| == g.size && forall x | 0 <= x < g.size :: InUse(g, d, x)
  }

  /** The blocks of the free map. */
  ghost function Maps(g: Geometry): set<nat> {
    set b: nat | b <= g.bmapstart + g.size / BITS && IsMap(g, b)
  }

  predicate IsMap(g: Geometry, b: nat) { g.bmapstart <= b <= g.bmapstart + g.size / BITS }

  lemma MapOf(g: Geometry, b: nat)
    requires b < g.size
    ensures g.BBlock(b) in Maps(g)
  {
  }

  // ---------- what the map of owners says ----------

  /** Every nonzero block number occurs in one slot of one inode. */
  lemma SlotsDistinct(g: Geometry, d: seq<Block>, inodes: seq<Inode>, own: map<nat, (nat, nat)>, extra: set<nat>,
                      i: nat, s: nat, j: nat, t: nat)
    requires Owned(g, d, inodes, own, extra)
    requires i < |inodes| && j < |inodes| && s < NSLOT && t < NSLOT && (i, s) != (j, t)
    ensures Slot(d, inodes[i], s) != 0 ==> Slot(d, inodes[i], s) != Slot(d, inodes[j], t)
  {
  }

  lemma OwnedShape(g: Geometry, d: seq<Block>, inodes: seq<Inode>, own: map<nat, (nat, nat)>, extra: set<nat>)
    requires Owned(g, d, inodes, own, extra)
    ensures g.Valid() && |d| == g.size && |inodes| == g.ninodes && forall i | 0 <= i < |inodes| :: inodes[i].Valid()
  {
  }

  lemma InodeAddress(g: Geometry, d: seq<Block>, inodes: seq<Inode>, own: map<nat, (nat, nat)>, extra: set<nat>,
                     i: nat, s: nat)
    requires Owned(g, d, inodes, own, extra) && i < |inodes| && s <= NDIRECT
    ensures inodes[i].addrs[s] == Slot(d, inodes[i], s)
    ensures inodes[i].addrs[s] != 0 ==> g.datastart <= inodes[i].addrs[s] < g.size && g.datastart > 0
  {
  }

  lemma SlotInRange(g: Geometry, d: seq<Block>, inodes: seq<Inode>, own: map<nat, (nat, nat)>, extra: set<nat>, i: nat,
                    s: nat)
    requires Owned(g, d, inodes, own, extra) && i < |inodes| && s < NSLOT
    ensures Slot(d, inodes[i], s) != 0 ==> g.datastart <= Slot(d, inodes[i], s) < g.size
  {
  }

  lemma OwnRange(g: Geometry, d: seq<Block>, inodes: seq<Inode>, own: map<nat, (nat, nat)>, extra: set<nat>)
    requires Owned(g, d, inodes, own, extra)
    ensures forall b | b in own :: g.datastart <= b < g.size
    ensures forall b | b in extra :: g.datastart <= b < g.size && b !in own
    ensures forall b | 0 <= b < g.size && !InUse(g, d, b) :: g.datastart <= b && b !in own && b !in extra
  {
  }

  lemma EntrySlot(g: Geometry, d: seq<Block>, inodes: seq<Inode>, own: map<nat, (nat, nat)>, i: nat, k: nat)
    requires Owned(g, d, inodes, own, {}) && i < |inodes| && k < NINDIRECT && inodes[i].addrs[NDIRECT] != 0
    ensures inodes[i].addrs[NDIRECT] < |d|
    ensures Slot(d, inodes[i], NDIRECT + 1 + k) == WordAt(d[inodes[i].addrs[NDIRECT]], k)
    ensures Slot(d, inodes[i], NDIRECT + 1 + k) != 0 ==> g.datastart <= Slot(d, inodes[i], NDIRECT + 1 + k) < g.size
  {
    InodeAddress(g, d, inodes, own, {}, i, NDIRECT);
  }

  /** A block is marked in use iff it is metadata or in some slot. */
  lemma InUseIffOwned(g: Geometry, d: seq<Block>, inodes: seq<Inode>, own: map<nat, (nat, nat)>, b: nat)
    requires Owned(g, d, inodes, own, {}) && g.datastart <= b < g.size
    ensures InUse(g, d, b) <==> exists i, s :: 0 <= i < |inodes| && 0 <= s < NSLOT && Slot(d, inodes[i], s) == b
  {
    if b in own {
      assert Slot(d, inodes[own[b].0], own[b].1) == b;
    }
  }

  // ---------- single updates ----------

  /** Marking a free block and zeroing it: the core of balloc. */
  lemma Take(g: Geometry, d: seq<Block>, inodes: seq<Inode>, own: map<nat, (nat, nat)>, extra: set<nat>, b: nat)
    requires Owned(g, d, inodes, own, extra) && b < g.size && !InUse(g, d, b)
    ensures g.datastart <= b && b !in own && b !in extra && g.BBlock(b) < g.datastart
    ensures Owned(g, d[g.BBlock(b) := PutBit(d[g.BBlock(b)], b % BITS, true)][b := Zeroed()], inodes, own, extra + {b})
  {
    hide Slot, InUse, PutBit, Inodes;
    var e := d[g.BBlock(b) := PutBit(d[g.BBlock(b)], b % BITS, true)][b := Zeroed()];
    MapBlock(g, b);
    BitAt(g, d, b, true, Zeroed());
    SameSlots(g, d, inodes, own, extra, e);
  }

  lemma MapBlock(g: Geometry, b: nat)
    requires g.Valid() && b < g.size
    ensures g.bmapstart <= g.BBlock(b) < g.datastart
  {
  }

  /** Changing the bit of b, and b itself, changes no other bit. */
  lemma BitAt(g: Geometry, d: seq<Block>, b: nat, on: bool, v: Block)
    requires g.Valid() && |d| == g.size && g.datastart <= b < g.size
    ensures g.BBlock(b) < g.datastart
    ensures var e := d[g.BBlock(b) := PutBit(d[g.BBlock(b)], b % BITS, on)][b := v];
            forall x | 0 <= x < g.size :: InUse(g, e, x) == if x == b then on else InUse(g, d, x)
  {
    hide PutBit, BlockBit;
    var e := d[g.BBlock(b) := PutBit(d[g.BBlock(b)], b % BITS, on)][b := v];
    forall x | 0 <= x < g.size ensures InUse(g, e, x) == if x == b then on else InUse(g, d, x) {
      MapBlock(g, x);
      if g.BBlock(x) == g.BBlock(b) {
        PutBitAt(d[g.BBlock(b)], b % BITS, on, x % BITS);
        assert x == BITS * (x / BITS) + x % BITS && b == BITS * (b / BITS) + b % BITS;
      }
    }
  }

  /** A disk that keeps every indirect block has the same slots. */
  lemma SameSlots(g: Geometry, d: seq<Block>, inodes: seq<Inode>, own: map<nat, (nat, nat)>, extra: set<nat>,
                  e: seq<Block>)
    requires Owned(g, d, inodes, own, extra) && |e| == |d|
    requires forall b | b in own && own[b].1 == NDIRECT :: e[b] == d[b]
    ensures forall i, s | 0 <= i < |inodes| && 0 <= s < NSLOT :: Slot(e, inodes[i], s) == Slot(d, inodes[i], s)
  {
    hide WordAt;
    forall i, s | 0 <= i < |inodes| && 0 <= s < NSLOT ensures Slot(e, inodes[i], s) == Slot(d, inodes[i], s) {
      var x := Slot(d, inodes[i], NDIRECT);
      assert x == inodes[i].addrs[NDIRECT];
      if x != 0 { assert x in own && own[x] == (i, NDIRECT); }
    }
  }

  /** Clearing the bit of a block that is in no slot: bfree. */
  lemma GiveBack(g: Geometry, d: seq<Block>, inodes: seq<Inode>, own: map<nat, (nat, nat)>, extra: set<nat>, b: nat)
    requires Owned(g, d, inodes, own, extra) && b in extra
    ensures b < g.size && InUse(g, d, b) && g.BBlock(b) < g.datastart
    ensures Owned(g, d[g.BBlock(b) := PutBit(d[g.BBlock(b)], b % BITS, false)], inodes, own, extra - {b})
  {
    hide Slot, InUse, PutBit, Inodes;
    var e := d[g.BBlock(b) := PutBit(d[g.BBlock(b)], b % BITS, false)];
    MapBlock(g, b);
    BitAt(g, d, b, false, d[b]);
    assert e == e[b := d[b]];
    SameSlots(g, d, inodes, own, extra, e);
  }

  /** Storing into a block that is not an indirect block and not in the free map. */
  lemma Store(g: Geometry, d: seq<Block>, inodes: seq<Inode>, own: map<nat, (nat, nat)>, extra: set<nat>, b: nat,
              v: Block)
    requires Owned(g, d, inodes, own, extra) && b < g.size
    requires b < g.bmapstart || b >= g.datastart
    requires b in own ==> own[b].1 != NDIRECT
    ensures Owned(g, d[b := v], inodes, own, extra)
    ensures forall i, s | 0 <= i < |inodes| && 0 <= s < NSLOT :: Slot(d[b := v], inodes[i], s) == Slot(d, inodes[i], s)
  {
    hide Slot, PutBit, Inodes, BlockBit;
    var e := d[b := v];
    forall x | 0 <= x < g.size ensures InUse(g, e, x) == InUse(g, d, x) {
      MapBlock(g, x);
    }
    hide InUse;
    SameSlots(g, d, inodes, own, extra, e);
  }

  /** Changes of an inode that leave its addresses alone. */
  lemma Restat(g: Geometry, d: seq<Block>, inodes: seq<Inode>, own: map<nat, (nat, nat)>, extra: set<nat>, i: nat,
               ino: Inode)
    requires Owned(g, d, inodes, own, extra) && i < |inodes| && ino.Valid() && ino.addrs == inodes[i].addrs
    ensures Owned(g, d, inodes[i := ino], own, extra)
  {
    hide InUse, WordAt;
    assert forall s | 0 <= s < NSLOT :: Slot(d, ino, s) == Slot(d, inodes[i], s);
  }

  /** Putting a block into an empty direct slot, or a zeroed one into the empty indirect slot. */
  lemma Attach(g: Geometry, d: seq<Block>, inodes: seq<Inode>, own: map<nat, (nat, nat)>, extra: set<nat>, i: nat,
               s: nat, b: nat)
    requires Owned(g, d, inodes, own, extra) && i < |inodes| && s <= NDIRECT && b in extra
    requires inodes[i].addrs[s] == 0 && (s == NDIRECT ==> d[b] == Zeroed())
    ensures var ino := inodes[i].(addrs := inodes[i].addrs[s := b]);
            && b < UINT && ino.Valid() && Owned(g, d, inodes[i := ino], own[b := (i, s)], extra - {b})
            && forall t | 0 <= t < NSLOT && t != s :: Slot(d, ino, t) == Slot(d, inodes[i], t)
  {
    hide InUse, Bytes;
    var ino := inodes[i].(addrs := inodes[i].addrs[s := b]);
    ZeroWords();
    assert forall t | 0 <= t < NSLOT && t != s :: Slot(d, ino, t) == Slot(d, inodes[i], t);
  }

  lemma ZeroWords()
    ensures forall k | 0 <= k < WORDS :: WordAt(Zeroed(), k) == 0
  {
  }

  /** Storing one entry of an inode's indirect block changes that slot alone. */
  lemma EntryStored(g: Geometry, d: seq<Block>, inodes: seq<Inode>, own: map<nat, (nat, nat)>, extra: set<nat>, i: nat,
                    k: nat, b: Word)
    requires Owned(g, d, inodes, own, extra) && i < |inodes| && k < NINDIRECT && inodes[i].addrs[NDIRECT] != 0
    ensures var x := inodes[i].addrs[NDIRECT];
            && x in own && own[x] == (i, NDIRECT) && g.datastart <= x < |d|
            && var e := d[x := SetWord(d[x], k, b)];
            && (forall c | 0 <= c < g.size :: InUse(g, e, c) == InUse(g, d, c))
            && forall j, t | 0 <= j < |inodes| && 0 <= t < NSLOT ::
                 Slot(e, inodes[j], t) == if j == i && t == NDIRECT + 1 + k then b else Slot(d, inodes[j], t)
  {
    var x := inodes[i].addrs[NDIRECT];
    assert Slot(d, inodes[i], NDIRECT) == x;
    var e := d[x := SetWord(d[x], k, b)];
    hide InUse, WordAt, SetWord, Inodes;
    forall j, t | 0 <= j < |inodes| && 0 <= t < NSLOT
      ensures Slot(e, inodes[j], t) == if j == i && t == NDIRECT + 1 + k then b else Slot(d, inodes[j], t)
    {
      assert Slot(d, inodes[j], NDIRECT) == inodes[j].addrs[NDIRECT];
    }
    forall c | 0 <= c < g.size ensures InUse(g, e, c) == InUse(g, d, c) {
      SameMap(g, d, e, x, c);
    }
  }

  /** Putting a block into an empty slot, whatever store did it. */
  lemma FillSlot(g: Geometry, d: seq<Block>, inodes: seq<Inode>, own: map<nat, (nat, nat)>, extra: set<nat>, i: nat,
                 s: nat, b: nat, e: seq<Block>)
    requires Owned(g, d, inodes, own, extra) && i < |inodes| && s < NSLOT && b in extra && Slot(d, inodes[i], s) == 0
    requires |e| == |d| && forall c | 0 <= c < g.size :: InUse(g, e, c) == InUse(g, d, c)
    requires forall j, t | 0 <= j < |inodes| && 0 <= t < NSLOT ::
               Slot(e, inodes[j], t) == if j == i && t == s then b else Slot(d, inodes[j], t)
    ensures Owned(g, e, inodes, own[b := (i, s)], extra - {b})
  {
    hide InUse, Slot, Inodes;
  }

  /** Putting a block into an empty entry of the indirect block. */
  lemma AttachEntry(g: Geometry, d: seq<Block>, inodes: seq<Inode>, own: map<nat, (nat, nat)>, extra: set<nat>, i: nat,
                    k: nat, b: Word)
    requires Owned(g, d, inodes, own, extra) && i < |inodes| && k < NINDIRECT && b in extra
    requires inodes[i].addrs[NDIRECT] != 0 && Slot(d, inodes[i], NDIRECT + 1 + k) == 0
    ensures inodes[i].addrs[NDIRECT] < |d|
    ensures Owned(g, d[inodes[i].addrs[NDIRECT] := SetWord(d[inodes[i].addrs[NDIRECT]], k, b)], inodes,
                  own[b := (i, NDIRECT + 1 + k)], extra - {b})
  {
    EntryStored(g, d, inodes, own, extra, i, k, b);
    hide InUse, Slot, SetWord, Inodes, Owned;
    var x := inodes[i].addrs[NDIRECT];
    FillSlot(g, d, inodes, own, extra, i, NDIRECT + 1 + k, b, d[x := SetWord(d[x], k, b)]);
  }

  lemma SameMap(g: Geometry, d: seq<Block>, e: seq<Block>, x: nat, c: nat)
    requires g.Valid() && |d| == |e| == g.size && g.datastart <= x < g.size && e == d[x := e[x]] && c < g.size
    ensures InUse(g, e, c) == InUse(g, d, c)
  {
    MapBlock(g, c);
  }

  /** Taking a block out of a direct slot. */
  lemma Detach(g: Geometry, d: seq<Block>, inodes: seq<Inode>, own: map<nat, (nat, nat)>, extra: set<nat>, i: nat,
               s: nat)
    requires Owned(g, d, inodes, own, extra) && i < |inodes| && s < NDIRECT && inodes[i].addrs[s] != 0
    ensures var b := inodes[i].addrs[s];
            var ino := inodes[i].(addrs := inodes[i].addrs[s := 0]);
            ino.Valid() && Owned(g, d, inodes[i := ino], own - {b}, extra + {b})
  {
    hide InUse, WordAt;
    var b := inodes[i].addrs[s];
    assert b == Slot(d, inodes[i], s);
    var ino := inodes[i].(addrs := inodes[i].addrs[s := 0]);
    assert forall t | 0 <= t < NSLOT :: Slot(d, ino, t) == if t == s then 0 else Slot(d, inodes[i], t);
  }

  /** The entries of an indirect block from the k-th on. */
  ghost function Entries(b: Block, k: nat): set<nat>
  {
    set j | k <= j < NINDIRECT && WordAt(b, j) != 0 :: WordAt(b, j)
  }

  /** The entries of an inode's indirect block are the blocks it owns in the slots behind it. */
  lemma EntryOwners(g: Geometry, d: seq<Block>, inodes: seq<Inode>, own: map<nat, (nat, nat)>, extra: set<nat>, i: nat)
    requires Owned(g, d, inodes, own, extra) && i < |inodes| && inodes[i].addrs[NDIRECT] != 0
    ensures var x := inodes[i].addrs[NDIRECT];
            && x < g.size && x in own && own[x] == (i, NDIRECT)
            && (forall j, k | 0 <= j < k < NINDIRECT :: WordAt(d[x], j) == 0 || WordAt(d[x], j) != WordAt(d[x], k))
            && (forall b :: b in Entries(d[x], 0) <==> b in own && own[b].0 == i && own[b].1 > NDIRECT)
  {
    hide InUse, WordAt;
    var x := inodes[i].addrs[NDIRECT];
    assert x == Slot(d, inodes[i], NDIRECT);
    assert forall j | 0 <= j < NINDIRECT :: WordAt(d[x], j) == Slot(d, inodes[i], NDIRECT + 1 + j);
    forall b | b in own && own[b].0 == i && own[b].1 > NDIRECT ensures b in Entries(d[x], 0) {
      assert b == WordAt(d[x], own[b].1 - NDIRECT - 1);
    }
  }

  /** Taking the indirect block, and with it all its entries, out of an inode. */
  lemma DetachIndirect(g: Geometry, d: seq<Block>, inodes: seq<Inode>, own: map<nat, (nat, nat)>, extra: set<nat>,
                       i: nat)
    requires Owned(g, d, inodes, own, extra) && i < |inodes| && inodes[i].addrs[NDIRECT] != 0
    ensures var x := inodes[i].addrs[NDIRECT];
            var ino := inodes[i].(addrs := inodes[i].addrs[NDIRECT := 0]);
            && x < g.size && ino.Valid()
            && Owned(g, d, inodes[i := ino], own - ({x} + Entries(d[x], 0)), extra + ({x} + Entries(d[x], 0)))
  {
    EntryOwners(g, d, inodes, own, extra, i);
    hide InUse, WordAt, Entries;
    var x := inodes[i].addrs[NDIRECT];
    assert x == Slot(d, inodes[i], NDIRECT);
    var ino := inodes[i].(addrs := inodes[i].addrs[NDIRECT := 0]);
    assert forall t | 0 <= t < NSLOT :: Slot(d, ino, t) == if t >= NDIRECT then 0 else Slot(d, inodes[i], t);
  }

  // ---------- files as byte sequences ----------

  /** The k-th byte of a file; a hole reads as zero. */
  function ByteAt(d: seq<Block>, ino: Inode, k: nat): Byte
    requires ino.Valid() && k < MAXFILE * BSIZE
  {
    var b := Slot(d, ino, DataSlot(k / BSIZE));
    if 0 < b < |d| then d[b][k % BSIZE] else 0
  }

  function Content(d: seq<Block>, ino: Inode): (s: seq<Byte>)
    requires ino.Valid()
    ensures |s| == ino.size
  {
    seq(ino.size, k requires 0 <= k < ino.size => ByteAt(d, ino, k))
  }

  /** Every block below the file's size is there. */
  predicate Mapped(d: seq<Block>, ino: Inode)
    requires ino.Valid()
  {
    forall bn | 0 <= bn < MAXFILE && bn * BSIZE < ino.size :: Slot(d, ino, DataSlot(bn)) != 0
  }

  ghost predicate SameBytes(d: seq<Block>, ino: Inode, e: seq<Block>, jno: Inode)
    requires ino.Valid() && jno.Valid()
  {
    forall k | 0 <= k < MAXFILE * BSIZE :: ByteAt(d, ino, k) == ByteAt(e, jno, k)
  }

  /** Writes that spare the owned blocks are seen by no file. */
  lemma Untouched(g: Geometry, d: seq<Block>, inodes: seq<Inode>, own: map<nat, (nat, nat)>, extra: set<nat>,
                  e: seq<Block>)
    requires Owned(g, d, inodes, own, extra) && |e| == |d| && forall b | b in own :: e[b] == d[b]
    ensures forall i | 0 <= i < |inodes| :: SameBytes(d, inodes[i], e, inodes[i])
  {
    SameSlots(g, d, inodes, own, extra, e);
    hide Slot, InUse;
  }

  /** A file sees the block stored in one of its slots; nobody else does. */
  lemma StoreBytes(g: Geometry, d: seq<Block>, inodes: seq<Inode>, own: map<nat, (nat, nat)>, extra: set<nat>, i: nat,
                   bn: nat, v: Block)
    requires Owned(g, d, inodes, own, extra) && i < |inodes| && bn < MAXFILE
    requires Slot(d, inodes[i], DataSlot(bn)) != 0
    ensures var b := Slot(d, inodes[i], DataSlot(bn));
            && g.datastart <= b < g.size && b in own && own[b] == (i, DataSlot(bn))
            && Owned(g, d[b := v], inodes, own, extra)
            && (forall j | 0 <= j < |inodes| && j != i :: SameBytes(d, inodes[j], d[b := v], inodes[j]))
            && (forall k | 0 <= k < MAXFILE * BSIZE ::
                  ByteAt(d[b := v], inodes[i], k) == if k / BSIZE == bn then v[k % BSIZE] else ByteAt(d, inodes[i], k))
            && (forall j, s | 0 <= j < |inodes| && 0 <= s < NSLOT ::
              Slot(d[b := v], inodes[j], s) == Slot(d, inodes[j], s))
  {
    hide InUse, WordAt;
    var b := Slot(d, inodes[i], DataSlot(bn));
    assert b in own && own[b] == (i, DataSlot(bn));
    Store(g, d, inodes, own, extra, b, v);
    hide Slot;
    forall j, k | 0 <= j < |inodes| && 0 <= k < MAXFILE * BSIZE
      ensures ByteAt(d[b := v], inodes[j], k) == if (j, k / BSIZE) == (i, bn) then v[k % BSIZE]
        else ByteAt(d, inodes[j], k)
    {
      var c := Slot(d, inodes[j], DataSlot(k / BSIZE));
      if c != 0 { assert c in own && own[c] == (j, DataSlot(k / BSIZE)); }
    }
  }

  // ---------- inodes in their disk blocks ----------

  function InodeWords(ino: Inode): (ws: seq<Word>)
    requires ino.Valid()
    ensures |ws| == 16 && FromWords(ws) == ino
  {
    [ino.kind + 0x1_0000 * ino.major, ino.minor + 0x1_0000 * ino.nlink, ino.size] + ino.addrs
  }

  function FromWords(ws: seq<Word>): Inode
    requires |ws| == 16
  {
    Inode(ws[0] % 0x1_0000, ws[0] / 0x1_0000, ws[1] % 0x1_0000, ws[1] / 0x1_0000, ws[2], ws[3..])
  }

  /** The n-th struct dinode of a block. */
  function Decode(b: Block, n: nat): Inode
    requires n < IPB
  {
    FromWords(GetWords(b, 16 * n, 16))
  }

  /** The block after iupdate. */
  function Encode(b: Block, n: nat, ino: Inode): Block
    requires n < IPB && ino.Valid()
  {
    PutWords(b, 16 * n, InodeWords(ino))
  }

  /** Reading an inode back gives what was written; its neighbours in the block are kept. */
  lemma EncodeDecode(b: Block, n: nat, ino: Inode, m: nat)
    requires n < IPB && m < IPB && ino.Valid()
    ensures Decode(Encode(b, n, ino), m) == if m == n then ino else Decode(b, m)
  {
    hide GetWords, PutWords, FromWords;
    GetPut(b, 16 * n, InodeWords(ino), 16 * m, 16);
  }

  function DiskInode(g: Geometry, d: seq<Block>, i: nat): Inode
    requires g.Valid() && |d| == g.size && i < g.ninodes
  {
    Decode(d[g.IBlock(i)], i % IPB)
  }
}
