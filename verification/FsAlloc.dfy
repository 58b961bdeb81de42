/** Growing a file by one block: what bmap's allocations keep. */
module FsAlloc {
  import opened Blocks
  import opened FsLayout

  /** No file changes a byte, a size or a mapped block, and no inode block is touched. */
  ghost predicate Kept(g: Geometry, d: seq<Block>, inodes: seq<Inode>, e: seq<Block>, jnodes: seq<Inode>)
  {
    && |e| == |d| == g.size && |jnodes| == |inodes| && g.Valid()
    && (forall x | 0 <= x < g.bmapstart :: e[x] == d[x])
    && (forall j | 0 <= j < |inodes| ::
          && inodes[j].Valid() && jnodes[j].Valid()
          && jnodes[j] == inodes[j].(addrs := jnodes[j].addrs)
          && SameBytes(d, inodes[j], e, jnodes[j]))
    && (forall j, s | 0 <= j < |inodes| && 0 <= s < NSLOT ::
      Slot(d, inodes[j], s) != 0 ==> Slot(e, jnodes[j], s) == Slot(d, inodes[j], s))
  }

  lemma KeptSlot(g: Geometry, d: seq<Block>, ds: seq<Inode>, e: seq<Block>, es: seq<Inode>, i: nat, s: nat)
    requires Kept(g, d, ds, e, es) && i < |ds| && s < NSLOT
    ensures |es| == |ds| && ds[i].Valid() && es[i].Valid()
    ensures Slot(d, ds[i], s) != 0 ==> Slot(e, es[i], s) == Slot(d, ds[i], s)
  {
  }

  lemma KeptTrans(g: Geometry, d: seq<Block>, ds: seq<Inode>, e: seq<Block>, es: seq<Inode>, f: seq<Block>,
                  fs: seq<Inode>)
    requires Kept(g, d, ds, e, es) && Kept(g, e, es, f, fs)
    ensures Kept(g, d, ds, f, fs)
  {
    hide ByteAt, Slot;
  }

  lemma KeptRefl(g: Geometry, d: seq<Block>, ds: seq<Inode>)
    requires g.Valid() && |d| == g.size && Inodes(g, ds)
    ensures Kept(g, d, ds, d, ds)
  {
    hide ByteAt, Slot;
  }

  /** A zeroed block in a slot that was empty reads like the hole it fills. */
  lemma FillHole(d: seq<Block>, ino: Inode, e: seq<Block>, jno: Inode, s: nat, b: nat)
    requires ino.Valid() && jno.Valid() && |e| == |d| && s < NSLOT && b < |d|
    requires forall t | 0 <= t < NSLOT :: Slot(e, jno, t) == if t == s then b else Slot(d, ino, t)
    requires Slot(d, ino, s) == 0 && (s != NDIRECT ==> e[b] == Zeroed())
    requires forall t | 0 <= t < NSLOT && t != NDIRECT && 0 < Slot(d, ino, t) < |d| ::
      e[Slot(d, ino, t)] == d[Slot(d, ino, t)]
    ensures SameBytes(d, ino, e, jno)
  {
    hide Slot;
    forall k | 0 <= k < MAXFILE * BSIZE ensures ByteAt(d, ino, k) == ByteAt(e, jno, k) {
      var t := DataSlot(k / BSIZE);
      assert Slot(e, jno, t) == if t == s then b else Slot(d, ino, t);
    }
  }

  /** The disk after balloc returned b. */
  function Allocated(g: Geometry, d: seq<Block>, b: nat): (e: seq<Block>)
    requires g.Valid() && |d| == g.size && b < g.size
    ensures |e| == |d| && e[b] == Zeroed()
  {
    d[g.BBlock(b) := PutBit(d[g.BBlock(b)], b % BITS, true)][b := Zeroed()]
  }

  lemma TakeKeeps(g: Geometry, d: seq<Block>, inodes: seq<Inode>, own: map<nat, (nat, nat)>, b: nat)
    requires Owned(g, d, inodes, own, {}) && b < g.size && !InUse(g, d, b)
    ensures var e := Allocated(g, d, b);
            && b >= g.datastart && b !in own && Owned(g, e, inodes, own, {b}) && Kept(g, d, inodes, e, inodes)
            && forall c | c in own :: e[c] == d[c]
  {
    hide InUse, Slot, PutBit, ByteAt, Inodes;
    Take(g, d, inodes, own, {}, b);
    var e := Allocated(g, d, b);
    assert {} + {b} == {b};
    OwnedShape(g, d, inodes, own, {});
    OwnRange(g, d, inodes, own, {});
    hide Owned;
    Untouched(g, d, inodes, own, {}, e);
    SameSlots(g, d, inodes, own, {}, e);
  }

  /** A fresh block put into an inode's empty address s. */
  lemma GrowInode(g: Geometry, d: seq<Block>, inodes: seq<Inode>, own: map<nat, (nat, nat)>, i: nat, s: nat, b: nat)
    requires Owned(g, d, inodes, own, {}) && b < g.size && !InUse(g, d, b)
    requires i < |inodes| && s <= NDIRECT && inodes[i].addrs[s] == 0
    ensures var e := Allocated(g, d, b);
            var js := inodes[i := inodes[i].(addrs := inodes[i].addrs[s := b])];
            Owned(g, e, js, own[b := (i, s)], {}) && Kept(g, d, inodes, e, js)
  {
    TakeKeeps(g, d, inodes, own, b);
    var e := Allocated(g, d, b);
    Attach(g, e, inodes, own, {b}, i, s, b);
    var js := inodes[i := inodes[i].(addrs := inodes[i].addrs[s := b])];
    assert {b} - {b} == {};
    SlotOfAddress(e, inodes[i], js[i], s, b);
    AllOwned(g, e, inodes, own, {b}, i);
    hide InUse, Slot, ByteAt, PutBit;
    FillHole(e, inodes[i], e, js[i], s, b);
    KeptOne(g, e, inodes, e, js, i);
    KeptTrans(g, d, inodes, e, inodes, e, js);
  }

  lemma SlotOfAddress(d: seq<Block>, ino: Inode, jno: Inode, s: nat, b: Word)
    requires ino.Valid() && s <= NDIRECT && jno == ino.(addrs := ino.addrs[s := b]) && jno.Valid()
    ensures Slot(d, ino, s) == ino.addrs[s] && Slot(d, jno, s) == b
  {
  }

  lemma AllOwned(g: Geometry, d: seq<Block>, inodes: seq<Inode>, own: map<nat, (nat, nat)>, extra: set<nat>, i: nat)
    requires Owned(g, d, inodes, own, extra) && i < |inodes|
    ensures forall t | 0 <= t < NSLOT && Slot(d, inodes[i], t) != 0 ::
      Slot(d, inodes[i], t) in own && own[Slot(d, inodes[i], t)] == (i, t)
  {
  }

  /** When only inode i and its slots moved, the files are kept if its own is. */
  lemma KeptOne(g: Geometry, d: seq<Block>, inodes: seq<Inode>, e: seq<Block>, jnodes: seq<Inode>, i: nat)
    requires g.Valid() && |e| == |d| == g.size && Inodes(g, inodes) && i < |inodes| == |jnodes|
    requires jnodes == inodes[i := jnodes[i]]
    requires jnodes[i].Valid() && jnodes[i] == inodes[i].(addrs := jnodes[i].addrs)
    requires forall x | 0 <= x < g.bmapstart :: e[x] == d[x]
    requires SameBytes(d, inodes[i], e, jnodes[i])
    requires forall j | 0 <= j < |inodes| && j != i :: SameBytes(d, inodes[j], e, inodes[j])
    requires forall j, s | 0 <= j < |inodes| && 0 <= s < NSLOT ::
      Slot(d, inodes[j], s) != 0 ==> Slot(e, jnodes[j], s) == Slot(d, inodes[j], s)
    ensures Kept(g, d, inodes, e, jnodes)
  {
    hide Slot, ByteAt;
  }

  lemma SameFile(d: seq<Block>, ino: Inode, e: seq<Block>)
    requires ino.Valid() && |e| == |d|
    requires forall t | 0 <= t < NSLOT :: Slot(e, ino, t) == Slot(d, ino, t)
    requires forall t | 0 <= t < NSLOT && t != NDIRECT && 0 < Slot(d, ino, t) < |d| ::
      e[Slot(d, ino, t)] == d[Slot(d, ino, t)]
    ensures SameBytes(d, ino, e, ino)
  {
    hide Slot;
  }

  /** No file holds data in another's, or its own, indirect block. */
  lemma NotIndirect(g: Geometry, d: seq<Block>, inodes: seq<Inode>, own: map<nat, (nat, nat)>, extra: set<nat>, i: nat,
                    j: nat)
    requires Owned(g, d, inodes, own, extra) && i < |inodes| && j < |inodes| && inodes[i].addrs[NDIRECT] != 0
    ensures forall t | 0 <= t < NSLOT && t != NDIRECT && Slot(d, inodes[j], t) != 0 ::
      Slot(d, inodes[j], t) != inodes[i].addrs[NDIRECT]
    ensures forall t | 0 <= t < NSLOT && Slot(d, inodes[j], t) != 0 :: Slot(d, inodes[j], t) !in extra
  {
    assert Slot(d, inodes[i], NDIRECT) == inodes[i].addrs[NDIRECT];
  }

  /** File j before and after entry k of inode i's indirect block is filled with the zeroed block b. */
  lemma EntryFile(g: Geometry, d: seq<Block>, inodes: seq<Inode>, own: map<nat, (nat, nat)>, i: nat, k: nat, b: Word,
                  j: nat)
    requires Owned(g, d, inodes, own, {b}) && d[b] == Zeroed()
    requires i < |inodes| && j < |inodes| && k < NINDIRECT && inodes[i].addrs[NDIRECT] != 0
    requires Slot(d, inodes[i], NDIRECT + 1 + k) == 0
    ensures inodes[i].addrs[NDIRECT] < |d|
    ensures SameBytes(d, inodes[j], d[inodes[i].addrs[NDIRECT] := SetWord(d[inodes[i].addrs[NDIRECT]], k, b)],
      inodes[j])
  {
    hide InUse, Slot, SetWord, Owned, ByteAt, Inodes;
    OwnedShape(g, d, inodes, own, {b});
    OwnRange(g, d, inodes, own, {b});
    assert b in {b};
    EntryStored(g, d, inodes, own, {b}, i, k, b);
    NotIndirect(g, d, inodes, own, {b}, i, j);
    NotIndirect(g, d, inodes, own, {b}, i, i);
    var x := inodes[i].addrs[NDIRECT];
    var e := d[x := SetWord(d[x], k, b)];
    if j == i {
      FillHole(d, inodes[i], e, inodes[i], NDIRECT + 1 + k, b);
    } else {
      SameFile(d, inodes[j], e);
    }
  }

  lemma EntryKeeps(g: Geometry, d: seq<Block>, inodes: seq<Inode>, own: map<nat, (nat, nat)>, i: nat, k: nat, b: Word)
    requires Owned(g, d, inodes, own, {b}) && d[b] == Zeroed()
    requires i < |inodes| && k < NINDIRECT && inodes[i].addrs[NDIRECT] != 0 && Slot(d, inodes[i], NDIRECT + 1 + k) == 0
    ensures inodes[i].addrs[NDIRECT] < |d|
    ensures var e := d[inodes[i].addrs[NDIRECT] := SetWord(d[inodes[i].addrs[NDIRECT]], k, b)];
            && Owned(g, e, inodes, own[b := (i, NDIRECT + 1 + k)], {})
            && Kept(g, d, inodes, e, inodes) && Slot(e, inodes[i], NDIRECT + 1 + k) == b
  {
    hide InUse, Slot, SetWord, ByteAt, Owned, Inodes;
    OwnedShape(g, d, inodes, own, {b});
    EntryStored(g, d, inodes, own, {b}, i, k, b);
    assert b in {b};
    AttachEntry(g, d, inodes, own, {b}, i, k, b);
    assert {b} - {b} == {};
    var x := inodes[i].addrs[NDIRECT];
    var e := d[x := SetWord(d[x], k, b)];
    forall j | 0 <= j < |inodes| ensures SameBytes(d, inodes[j], e, inodes[j]) {
      EntryFile(g, d, inodes, own, i, k, b, j);
    }
  }

  /** A fresh block put into an empty entry of an inode's indirect block. */
  lemma GrowEntry(g: Geometry, d: seq<Block>, inodes: seq<Inode>, own: map<nat, (nat, nat)>, i: nat, k: nat, b: nat)
    requires Owned(g, d, inodes, own, {}) && b < g.size && !InUse(g, d, b)
    requires i < |inodes| && k < NINDIRECT && inodes[i].addrs[NDIRECT] != 0 && Slot(d, inodes[i], NDIRECT + 1 + k) == 0
    ensures inodes[i].addrs[NDIRECT] < |d|
    ensures var e0, x := Allocated(g, d, b), inodes[i].addrs[NDIRECT];
            var e := e0[x := SetWord(e0[x], k, b)];
            && Owned(g, e, inodes, own[b := (i, NDIRECT + 1 + k)], {}) && Kept(g, d, inodes, e, inodes)
            && Slot(e, inodes[i], NDIRECT + 1 + k) == b && e0[x] == d[x]
  {
    TakeKeeps(g, d, inodes, own, b);
    SameSlots(g, d, inodes, own, {}, Allocated(g, d, b));
    AllOwned(g, d, inodes, own, {}, i);
    SlotOfAddress(d, inodes[i], inodes[i].(addrs := inodes[i].addrs[NDIRECT := 0]), NDIRECT, 0);
    hide InUse, Slot, SetWord, ByteAt, Owned;
    var e0, x := Allocated(g, d, b), inodes[i].addrs[NDIRECT];
    EntryKeeps(g, e0, inodes, own, i, k, b);
    KeptTrans(g, d, inodes, e0, inodes, e0[x := SetWord(e0[x], k, b)], inodes);
  }

  // ---------- contracts of bmap's steps ----------

  /** `if((addr = ip->addrs[s]) == 0) ip->addrs[s] = addr = balloc(ip->dev)`; bm are the bitmap blocks logged. */
  ghost predicate AddressPost(g: Geometry, d: seq<Block>, ds: seq<Inode>, lg: set<nat>, e: seq<Block>, es: seq<Inode>,
                              lg': set<nat>, i: nat, s: nat, addr: nat, bm: set<nat>)
  {
    && Kept(g, d, ds, e, es) && i < |ds| && s <= NDIRECT && ds[i].Valid() && g.datastart <= addr < g.size
    && es == ds[i := ds[i].(addrs := ds[i].addrs[s := addr])]
    && (ds[i].addrs[s] != 0 ==> e == d && es == ds && lg' == lg)
    && lg' <= lg + {addr} + bm && |bm| <= if ds[i].addrs[s] == 0 then 1 else 0
  }

  /** The second half of bmap: entry k of inode i's indirect block. */
  ghost predicate EntryPost(g: Geometry, d: seq<Block>, ds: seq<Inode>, lg: set<nat>, e: seq<Block>, lg': set<nat>,
                            i: nat, k: nat, addr: nat, bm: set<nat>)
  {
    && Kept(g, d, ds, e, ds) && i < |ds| && k < NINDIRECT && ds[i].Valid() && g.datastart <= addr < g.size
    && addr == Slot(e, ds[i], NDIRECT + 1 + k)
    && (Slot(d, ds[i], NDIRECT + 1 + k) != 0 ==> e == d && lg' == lg)
    && lg' <= lg + {addr, ds[i].addrs[NDIRECT]} + bm && |bm| <= if Slot(d, ds[i], NDIRECT + 1 + k) == 0 then 1 else 0
  }

  /** How many blocks bmap has to allocate: the data block, and perhaps the indirect block. */
  function Missing(d: seq<Block>, ino: Inode, bn: nat): nat
    requires ino.Valid() && bn < MAXFILE
  {
    (if Slot(d, ino, DataSlot(bn)) == 0 then 1 else 0) + if bn >= NDIRECT && ino.addrs[NDIRECT] == 0 then 1 else 0
  }

  /** bmap(): addr is now the bn-th block of inode i. A block already there is only looked up; otherwise
      at most Missing() bitmap blocks bm, the new blocks and the indirect block are logged. */
  ghost predicate BmapPost(g: Geometry, d: seq<Block>, ds: seq<Inode>, lg: set<nat>, e: seq<Block>, es: seq<Inode>,
                           lg': set<nat>, i: nat, bn: nat, addr: nat, bm: set<nat>)
  {
    && Kept(g, d, ds, e, es) && i < |ds| && bn < MAXFILE && ds[i].Valid() && g.datastart <= addr < g.size
    && es == ds[i := es[i]] && addr == Slot(e, es[i], DataSlot(bn))
    && (Slot(d, ds[i], DataSlot(bn)) != 0 ==> e == d && es == ds && lg' == lg)
    && (bn < NDIRECT || ds[i].addrs[NDIRECT] != 0 ==> es[i].addrs[NDIRECT] == ds[i].addrs[NDIRECT])
    && lg' <= lg + {addr} + bm + (if bn < NDIRECT then {} else {es[i].addrs[NDIRECT] as nat})
    && |bm| <= Missing(d, ds[i], bn)
  }

  lemma AddressFound(g: Geometry, d: seq<Block>, ds: seq<Inode>, own: map<nat, (nat, nat)>, lg: set<nat>, i: nat,
                     s: nat)
    requires Owned(g, d, ds, own, {}) && i < |ds| && s <= NDIRECT && ds[i].addrs[s] != 0
    ensures AddressPost(g, d, ds, lg, d, ds, lg, i, s, ds[i].addrs[s], {})
  {
    InodeAddress(g, d, ds, own, {}, i, s);
    KeptRefl(g, d, ds);
    hide Owned, Kept;
    assert ds[i] == ds[i].(addrs := ds[i].addrs[s := ds[i].addrs[s]]);
  }

  lemma AddressNew(g: Geometry, d: seq<Block>, ds: seq<Inode>, own: map<nat, (nat, nat)>, lg: set<nat>, i: nat, s: nat,
                   b: nat)
    requires Owned(g, d, ds, own, {}) && b < g.size && !InUse(g, d, b) && i < |ds| && s <= NDIRECT
    requires ds[i].addrs[s] == 0
    ensures var es := ds[i := ds[i].(addrs := ds[i].addrs[s := b])];
            && Owned(g, Allocated(g, d, b), es, own[b := (i, s)], {})
            && AddressPost(g, d, ds, lg, Allocated(g, d, b), es, lg + {g.BBlock(b), b}, i, s, b, {g.BBlock(b)})
  {
    TakeKeeps(g, d, ds, own, b);
    GrowInode(g, d, ds, own, i, s, b);
    hide Kept, Allocated, InUse, Slot;
  }

  lemma SlotAddress(g: Geometry, d: seq<Block>, ds: seq<Inode>, own: map<nat, (nat, nat)>, i: nat, bn: nat)
    requires Owned(g, d, ds, own, {}) && i < |ds|
    ensures ds[i].Valid() && |ds[i].addrs| == NDIRECT + 1
    ensures bn < NDIRECT ==> Slot(d, ds[i], DataSlot(bn)) == ds[i].addrs[bn]
    ensures NDIRECT <= bn < MAXFILE && Slot(d, ds[i], DataSlot(bn)) != 0 ==> ds[i].addrs[NDIRECT] != 0
  {
  }

  lemma AddressKeeps(g: Geometry, d: seq<Block>, ds: seq<Inode>, lg: set<nat>, e: seq<Block>, es: seq<Inode>,
                     lg': set<nat>, i: nat, s: nat, addr: nat, bm: set<nat>, t: nat)
    requires AddressPost(g, d, ds, lg, e, es, lg', i, s, addr, bm) && t < NSLOT
    ensures i < |ds| == |es| && ds[i].Valid() && es[i].Valid() && (Slot(d, ds[i], t) != 0 ==> Slot(e, es[i], t) != 0)
  {
    KeptSlot(g, d, ds, e, es, i, t);
    hide Kept, Slot;
  }

  lemma AddressSet(g: Geometry, d: seq<Block>, ds: seq<Inode>, lg: set<nat>, e: seq<Block>, es: seq<Inode>,
                   lg': set<nat>, i: nat, s: nat, addr: nat, bm: set<nat>)
    requires AddressPost(g, d, ds, lg, e, es, lg', i, s, addr, bm)
    ensures |es| == |ds| && i < |es| && |es[i].addrs| == NDIRECT + 1 && es[i].addrs[s] != 0
  {
    KeptSlot(g, d, ds, e, es, i, s);
    hide Kept, Slot;
  }

  lemma EntryFound(g: Geometry, d: seq<Block>, ds: seq<Inode>, own: map<nat, (nat, nat)>, lg: set<nat>, i: nat, k: nat)
    requires Owned(g, d, ds, own, {}) && i < |ds| && k < NINDIRECT && Slot(d, ds[i], NDIRECT + 1 + k) != 0
    ensures EntryPost(g, d, ds, lg, d, lg, i, k, Slot(d, ds[i], NDIRECT + 1 + k), {})
  {
    EntrySlot(g, d, ds, own, i, k);
    KeptRefl(g, d, ds);
    hide Owned, Kept, Slot;
  }

  lemma EntryNew(g: Geometry, d: seq<Block>, ds: seq<Inode>, own: map<nat, (nat, nat)>, lg: set<nat>, i: nat, k: nat,
                 b: nat)
    requires Owned(g, d, ds, own, {}) && b < g.size && !InUse(g, d, b) && i < |ds| && k < NINDIRECT
    requires ds[i].addrs[NDIRECT] != 0 && Slot(d, ds[i], NDIRECT + 1 + k) == 0
    ensures var x := ds[i].addrs[NDIRECT];
            && x < g.size && Allocated(g, d, b)[x] == d[x]
            && var e := Allocated(g, d, b)[x := SetWord(d[x], k, b)];
            && Owned(g, e, ds, own[b := (i, NDIRECT + 1 + k)], {})
            && EntryPost(g, d, ds, lg, e, lg + {g.BBlock(b), b} + {x as nat}, i, k, b, {g.BBlock(b)})
  {
    TakeKeeps(g, d, ds, own, b);
    GrowEntry(g, d, ds, own, i, k, b);
    OwnedShape(g, d, ds, own, {});
    hide Kept, Allocated, InUse, Slot, SetWord, Owned;
  }

  lemma BmapDirect(g: Geometry, d: seq<Block>, ds: seq<Inode>, lg: set<nat>, e: seq<Block>, es: seq<Inode>,
                   lg': set<nat>, i: nat, bn: nat, addr: nat, bm: set<nat>)
    requires bn < NDIRECT && AddressPost(g, d, ds, lg, e, es, lg', i, bn, addr, bm)
    ensures BmapPost(g, d, ds, lg, e, es, lg', i, bn, addr, bm)
  {
    KeptSlot(g, d, ds, e, es, i, bn);
    hide Kept, WordAt;
  }

  lemma BmapIndirect(g: Geometry, d: seq<Block>, ds: seq<Inode>, lg: set<nat>, x: nat, e: seq<Block>, es: seq<Inode>,
                     lg': set<nat>, bm: set<nat>, f: seq<Block>, lg'': set<nat>, i: nat, bn: nat, addr: nat,
                     bm': set<nat>)
    requires NDIRECT <= bn < MAXFILE && AddressPost(g, d, ds, lg, e, es, lg', i, NDIRECT, x, bm)
    requires EntryPost(g, e, es, lg', f, lg'', i, bn - NDIRECT, addr, bm')
    ensures BmapPost(g, d, ds, lg, f, es, lg'', i, bn, addr, bm + bm')
  {
    KeptTrans(g, d, ds, e, es, f, es);
    KeptSlot(g, d, ds, e, es, i, bn + 1);
    assert ds[i].addrs[NDIRECT] == 0 ==> Slot(d, ds[i], bn + 1) == 0;
    hide Kept, Slot;
  }

  // ---------- a new file system ----------

  /** mkfs has marked the blocks below x, and written nothing else. */
  ghost predicate MadeTo(g: Geometry, d: seq<Block>, x: nat) {
    && g.Valid() && |d| == g.size && (forall y | 0 <= y < g.size :: InUse(g, d, y) <==> y < x)
    && forall b | 0 <= b < g.bmapstart :: d[b] == Zeroed()
  }

  lemma {:induction false} ZeroBit(k: nat)
    ensures !Bit(0, k)
  {
    if k > 0 { ZeroBit(k - 1); }
  }

  lemma EmptyMap(g: Geometry, d: seq<Block>)
    requires g.Valid() && d == seq(g.size, _ => Zeroed())
    ensures MadeTo(g, d, 0)
  {
    forall y | 0 <= y < g.size ensures !InUse(g, d, y) {
      MapBlock(g, y);
      ZeroBit(y % BITS % 8);
    }
  }

  lemma MarkOne(g: Geometry, d: seq<Block>, x: nat)
    requires MadeTo(g, d, x) && x < g.size
    ensures g.BBlock(x) < |d| && MadeTo(g, d[g.BBlock(x) := PutBit(d[g.BBlock(x)], x % BITS, true)], x + 1)
  {
    MapBlock(g, x);
    hide PutBit, BlockBit;
    var e := d[g.BBlock(x) := PutBit(d[g.BBlock(x)], x % BITS, true)];
    forall y | 0 <= y < g.size ensures InUse(g, e, y) == if y == x then true else InUse(g, d, y) {
      MapBlock(g, y);
      if g.BBlock(y) == g.BBlock(x) {
        PutBitAt(d[g.BBlock(x)], x % BITS, true, y % BITS);
        assert y == BITS * (y / BITS) + y % BITS && x == BITS * (x / BITS) + x % BITS;
      }
    }
  }

  lemma ZeroWord(j: nat)
    requires j < WORDS
    ensures WordAt(Zeroed(), j) == 0
  {
    assert Zeroed()[4 * j..4 * j + 4] == [0, 0, 0, 0];
  }

  lemma ZeroInode(n: nat)
    requires n < IPB
    ensures Decode(Zeroed(), n) == NoInode()
  {
    var ws := GetWords(Zeroed(), 16 * n, 16);
    forall k | 0 <= k < 16 ensures ws[k] == 0 {
      assert ws[k] == WordAt(Zeroed(), 16 * n + k);
      ZeroWord(16 * n + k);
    }
    assert ws[3..] == seq(NDIRECT + 1, _ => 0);
  }

  lemma EmptySystem(g: Geometry, d: seq<Block>, ds: seq<Inode>)
    requires MadeTo(g, d, g.datastart) && ds == seq(g.ninodes, _ => NoInode())
    ensures Owned(g, d, ds, map[], {})
    ensures forall j | 0 <= j < |ds| :: ds[j].Valid() && Mapped(d, ds[j]) && DiskInode(g, d, j) == ds[j]
  {
    forall j, s | 0 <= j < |ds| && 0 <= s < NSLOT ensures Slot(d, ds[j], s) == 0 {}
    forall j | 0 <= j < |ds| ensures DiskInode(g, d, j) == ds[j] {
      ZeroInode(j % IPB);
    }
    hide InUse, Slot, Decode;
  }
}
