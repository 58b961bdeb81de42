/** Throwing a file's blocks away: the steps of itrunc; and writes in several transactions. */
module FsFree {
  import opened Blocks
  import opened FsLayout
  import opened FsBytes

  /** Everything outside inode i is as it was, and so are its attributes; d and ds are the state in the middle of
      itrunc(i). */
  ghost predicate Others(g: Geometry, d0: seq<Block>, ds0: seq<Inode>, d: seq<Block>, ds: seq<Inode>, i: nat)
  {
    && g.Valid() && |d0| == |d| == g.size && i < |ds0| == |ds| == g.ninodes
    && (forall j | 0 <= j < |ds0| :: ds0[j].Valid() && ds[j].Valid())
    && (forall x | 0 <= x < g.bmapstart :: d[x] == d0[x])
    && (forall j | 0 <= j < |ds0| && j != i :: ds[j] == ds0[j] && SameBytes(d0, ds0[j], d, ds[j]))
    && (forall j, s | 0 <= j < |ds0| && j != i && 0 <= s < NSLOT :: Slot(d, ds[j], s) == Slot(d0, ds0[j], s))
    && ds[i] == ds0[i].(addrs := ds[i].addrs)
  }

  function Cleared(g: Geometry, d: seq<Block>, b: nat): (e: seq<Block>)
    requires g.Valid() && |d| == g.size && b < g.size
    ensures |e| == |d|
  {
    d[g.BBlock(b) := PutBit(d[g.BBlock(b)], b % BITS, false)]
  }

  lemma OthersStart(g: Geometry, d: seq<Block>, ds: seq<Inode>, own: map<nat, (nat, nat)>, i: nat)
    requires Owned(g, d, ds, own, {}) && i < |ds|
    ensures Others(g, d, ds, d, ds, i)
  {
    hide Owned, Slot, ByteAt;
    OwnedShape(g, d, ds, own, {});
  }

  lemma OthersStat(g: Geometry, d0: seq<Block>, ds0: seq<Inode>, d: seq<Block>, ds: seq<Inode>, i: nat)
    requires Others(g, d0, ds0, d, ds, i)
    ensures i < |ds0| == |ds| && ds[i] == ds0[i].(addrs := ds[i].addrs)
  {
    hide Slot, ByteAt;
  }

  lemma NoEntries(b: Block)
    ensures Entries(b, NINDIRECT) == {}
  {
    hide WordAt;
  }

  /** Clearing a bit is seen by no file. */
  lemma OthersClear(g: Geometry, d0: seq<Block>, ds0: seq<Inode>, d: seq<Block>, ds: seq<Inode>,
                    own: map<nat, (nat, nat)>, extra: set<nat>, i: nat, b: nat)
    requires Others(g, d0, ds0, d, ds, i) && Owned(g, d, ds, own, extra) && b in extra
    ensures b < g.size && InUse(g, d, b) && Owned(g, Cleared(g, d, b), ds, own, extra - {b})
    ensures Others(g, d0, ds0, Cleared(g, d, b), ds, i)
    ensures forall x | g.datastart <= x < g.size :: Cleared(g, d, b)[x] == d[x]
  {
    hide Owned, Slot, ByteAt, PutBit, InUse, Inodes;
    OwnedShape(g, d, ds, own, extra);
    OwnRange(g, d, ds, own, extra);
    GiveBack(g, d, ds, own, extra, b);
    var e := Cleared(g, d, b);
    Untouched(g, d, ds, own, extra, e);
    SameSlots(g, d, ds, own, extra, e);
  }

  /** Freeing the block in a direct slot. */
  lemma FreeDirect(g: Geometry, d0: seq<Block>, ds0: seq<Inode>, d: seq<Block>, ds: seq<Inode>,
                   own: map<nat, (nat, nat)>, i: nat, s: nat)
    requires Others(g, d0, ds0, d, ds, i) && Owned(g, d, ds, own, {}) && s < NDIRECT && ds[i].addrs[s] != 0
    ensures ds[i].addrs[s] < g.size && InUse(g, d, ds[i].addrs[s])
    ensures var e, js := Cleared(g, d, ds[i].addrs[s]), ds[i := ds[i].(addrs := ds[i].addrs[s := 0])];
            Others(g, d0, ds0, e, js, i) && Owned(g, e, js, own - {ds[i].addrs[s]}, {})
  {
    hide Owned, Slot, ByteAt, Cleared, InUse, Inodes;
    var b, js := ds[i].addrs[s], ds[i := ds[i].(addrs := ds[i].addrs[s := 0])];
    Detach(g, d, ds, own, {}, i, s);
    assert {} + {b as nat} == {b};
    OthersMove(g, d0, ds0, d, ds, js, i);
    OthersClear(g, d0, ds0, d, js, own - {b}, {b}, i, b);
    assert {b as nat} - {b as nat} == {};
  }

  lemma OthersMove(g: Geometry, d0: seq<Block>, ds0: seq<Inode>, d: seq<Block>, ds: seq<Inode>, js: seq<Inode>, i: nat)
    requires Others(g, d0, ds0, d, ds, i) && |js| == |ds| && js == ds[i := js[i]]
    requires js[i] == ds[i].(addrs := js[i].addrs) && js[i].Valid()
    ensures Others(g, d0, ds0, d, js, i)
  {
    hide Slot, ByteAt;
  }

  /** Dropping the indirect block from the inode; its entries wait to be freed. */
  lemma DropIndirect(g: Geometry, d0: seq<Block>, ds0: seq<Inode>, d: seq<Block>, ds: seq<Inode>,
                     own: map<nat, (nat, nat)>, i: nat)
    requires Others(g, d0, ds0, d, ds, i) && Owned(g, d, ds, own, {}) && ds[i].addrs[NDIRECT] != 0
    ensures var x, js := ds[i].addrs[NDIRECT], ds[i := ds[i].(addrs := ds[i].addrs[NDIRECT := 0])];
            && g.datastart <= x < g.size
            && var gone := {x as nat} + Entries(d[x], 0);
            && Others(g, d0, ds0, d, js, i) && Owned(g, d, js, own - gone, gone)
            && x !in Entries(d[x], 0)
            && (forall j, k | 0 <= j < k < NINDIRECT :: WordAt(d[x], j) == 0 || WordAt(d[x], j) != WordAt(d[x], k))
  {
    hide Owned, Slot, ByteAt, Entries, InUse, Inodes, WordAt;
    InodeAddress(g, d, ds, own, {}, i, NDIRECT);
    EntryOwners(g, d, ds, own, {}, i);
    var x, js := ds[i].addrs[NDIRECT], ds[i := ds[i].(addrs := ds[i].addrs[NDIRECT := 0])];
    DetachIndirect(g, d, ds, own, {}, i);
    var gone := {x as nat} + Entries(d[x], 0);
    assert {} + gone == gone;
    OthersMove(g, d0, ds0, d, ds, js, i);
  }

  /** One entry less. */
  lemma NextEntry(b: Block, k: nat)
    requires k < NINDIRECT
    requires forall j, k | 0 <= j < k < NINDIRECT :: WordAt(b, j) == 0 || WordAt(b, j) != WordAt(b, k)
    ensures WordAt(b, k) == 0 ==> Entries(b, k + 1) == Entries(b, k)
    ensures WordAt(b, k) != 0 ==>
      WordAt(b, k) in Entries(b, k) && Entries(b, k) - {WordAt(b, k) as nat} == Entries(b, k + 1)
    ensures Entries(b, k) <= Entries(b, 0)
  {
    hide WordAt;
  }

  /** After the last bfree: the inode is empty, its old blocks are free, and iupdate has stored it. */
  lemma Truncated(g: Geometry, d0: seq<Block>, ds0: seq<Inode>, own0: map<nat, (nat, nat)>, d: seq<Block>,
                  ds: seq<Inode>, own: map<nat, (nat, nat)>, i: nat, ino: Inode)
    requires Owned(g, d0, ds0, own0, {}) && Synced(g, d0, ds0)
    requires Others(g, d0, ds0, d, ds, i) && Owned(g, d, ds, own, {}) && ds[i].addrs == seq(NDIRECT + 1, _ => 0)
    requires ino.Valid() && ino.size == 0 && ino.addrs == ds[i].addrs
    ensures var e, js := Updated(g, d, i, ino), ds[i := ino];
            && Owned(g, e, js, own, {}) && Synced(g, e, js)
            && (forall j | 0 <= j < |ds0| && j != i :: js[j] == ds0[j] && Content(e, js[j]) == Content(d0, ds0[j]))
            && (forall s | 0 <= s < NSLOT && Slot(d0, ds0[i], s) != 0 ::
              Slot(d0, ds0[i], s) < g.size && !InUse(g, e, Slot(d0, ds0[i], s)))
  {
    hide Owned, ByteAt, Content, Decode, Updated, Inodes, InUse, WordAt;
    OwnedShape(g, d, ds, own, {});
    var js := ds[i := ino];
    Restat(g, d, ds, own, {}, i, ino);
    UpdateKeeps(g, d, js, own, {}, i);
    var e := Updated(g, d, i, ino);
    assert forall s | 0 <= s < NSLOT :: Slot(e, js[i], s) == 0;
    hide Slot;
    forall j | 0 <= j < |ds0| ensures Mapped(e, js[j]) {
      if j != i {
        assert js[j] == ds[j] == ds0[j];
        forall s | 0 <= s < NSLOT ensures Slot(e, ds0[j], s) == Slot(d0, ds0[j], s) {
          assert Slot(e, js[j], s) == Slot(d, js[j], s) && Slot(d, ds[j], s) == Slot(d0, ds0[j], s);
        }
        MappedFrame(d0, e, ds0[j]);
      }
    }
    forall j | 0 <= j < |ds0| ensures DiskInode(g, e, j) == js[j] { DiskInodeFrame(g, d0, d, j); }
    forall j | 0 <= j < |ds0| && j != i ensures Content(e, js[j]) == Content(d0, ds0[j]) {
      SameContent(d, js[j], e, js[j]);
      SameContent(d0, ds0[j], d, ds[j]);
    }
    forall s | 0 <= s < NSLOT && Slot(d0, ds0[i], s) != 0
      ensures Slot(d0, ds0[i], s) < g.size && !InUse(g, e, Slot(d0, ds0[i], s))
    {
      NowFree(g, d0, ds0, own0, e, js, own, i, s);
    }
  }

  lemma NowFree(g: Geometry, d0: seq<Block>, ds0: seq<Inode>, own0: map<nat, (nat, nat)>, d: seq<Block>,
                ds: seq<Inode>, own: map<nat, (nat, nat)>, i: nat, s: nat)
    requires Owned(g, d0, ds0, own0, {}) && Owned(g, d, ds, own, {}) && i < |ds0| == |ds| && s < NSLOT
    requires forall t | 0 <= t < NSLOT :: Slot(d, ds[i], t) == 0
    requires forall j, t | 0 <= j < |ds0| && j != i && 0 <= t < NSLOT :: Slot(d, ds[j], t) == Slot(d0, ds0[j], t)
    ensures Slot(d0, ds0[i], s) != 0 ==> Slot(d0, ds0[i], s) < g.size && !InUse(g, d, Slot(d0, ds0[i], s))
  {
    hide Slot, InUse;
    var b := Slot(d0, ds0[i], s);
    assert b != 0 ==> b in own0 && own0[b] == (i, s);
    assert b != 0 ==> b !in own;
  }

  /** Two overwrites in a row are one. */
  lemma OverwriteTwice(file: seq<Byte>, off: nat, src: seq<Byte>, more: seq<Byte>)
    requires off <= |file|
    ensures Overwrite(Overwrite(file, off, src), off + |src|, more) == Overwrite(file, off, src + more)
  {
    var a, b := Overwrite(Overwrite(file, off, src), off + |src|, more), Overwrite(file, off, src + more);
    forall k | 0 <= k < |b| ensures a[k] == b[k] {
      OverwriteAt(file, off, src + more, k);
      OverwriteAt(Overwrite(file, off, src), off + |src|, more, k);
      if k < |Overwrite(file, off, src)| { OverwriteAt(file, off, src, k); }
    }
  }

  /** Two writes to the same file, seen as one. */
  lemma OnlyFileTwice(d0: seq<Block>, ds0: seq<Inode>, d: seq<Block>, ds: seq<Inode>, e: seq<Block>, es: seq<Inode>,
                      i: nat, file: seq<Byte>, off: nat, src: seq<Byte>, more: seq<Byte>)
    requires off <= |file| && OnlyFile(d0, ds0, d, ds, i, Overwrite(file, off, src))
    requires OnlyFile(d, ds, e, es, i, Overwrite(Overwrite(file, off, src), off + |src|, more))
    ensures OnlyFile(d0, ds0, e, es, i, Overwrite(file, off, src + more))
  {
    hide Content, Overwrite;
    OverwriteTwice(file, off, src, more);
  }

  lemma OnlyFileRefl(g: Geometry, d: seq<Block>, ds: seq<Inode>, own: map<nat, (nat, nat)>, i: nat, off: nat)
    requires Owned(g, d, ds, own, {}) && i < |ds| && off <= ds[i].size
    ensures ds[i].Valid() && OnlyFile(d, ds, d, ds, i, Overwrite(Content(d, ds[i]), off, []))
  {
    OwnedShape(g, d, ds, own, {});
    assert Overwrite(Content(d, ds[i]), off, []) == Content(d, ds[i]);
  }

  /** iupdate after a change of the fields other than size and addrs. */
  lemma Retyped(g: Geometry, d: seq<Block>, ds: seq<Inode>, own: map<nat, (nat, nat)>, i: nat, ino: Inode)
    requires Owned(g, d, ds, own, {}) && Synced(g, d, ds) && i < |ds|
    requires ino.Valid() && ino.size == ds[i].size && ino.addrs == ds[i].addrs
    ensures var e, js := Updated(g, d, i, ino), ds[i := ino];
            && Owned(g, e, js, own, {}) && Synced(g, e, js)
            && (forall j | 0 <= j < |ds| :: Content(e, js[j]) == Content(d, ds[j]))
            && (forall x | 0 <= x < g.size :: InUse(g, e, x) == InUse(g, d, x))
  {
    hide Owned, ByteAt, Content, Decode, Updated, Inodes, InUse, WordAt;
    OwnedShape(g, d, ds, own, {});
    var js, e := ds[i := ino], Updated(g, d, i, ino);
    Restat(g, d, ds, own, {}, i, ino);
    UpdateKeeps(g, d, js, own, {}, i);
    assert forall s | 0 <= s < NSLOT :: Slot(d, ino, s) == Slot(d, ds[i], s);
    assert SameBytes(d, ds[i], d, ino) by { SameAddresses(d, ds[i], ino); }
    hide Slot;
    forall j | 0 <= j < |ds| ensures Mapped(e, js[j]) && Content(e, js[j]) == Content(d, ds[j]) {
      MappedResize(d, ds[j], e, js[j]);
      SameContent(d, js[j], e, js[j]);
      SameContent(d, ds[j], d, js[j]);
    }
    forall x | 0 <= x < g.size ensures InUse(g, e, x) == InUse(g, d, x) { SameMarks(g, d, js, own, e, x); }
  }

  lemma SameMarks(g: Geometry, d: seq<Block>, ds: seq<Inode>, own: map<nat, (nat, nat)>, e: seq<Block>, x: nat)
    requires Owned(g, d, ds, own, {}) && Owned(g, e, ds, own, {}) && x < g.size
    ensures InUse(g, e, x) == InUse(g, d, x)
  {
    hide InUse, Slot;
  }

  lemma SameAddresses(d: seq<Block>, ino: Inode, jno: Inode)
    requires ino.Valid() && jno.Valid() && jno.addrs == ino.addrs
    ensures SameBytes(d, ino, d, jno)
  {
    hide WordAt;
    assert forall s | 0 <= s < NSLOT :: Slot(d, ino, s) == Slot(d, jno, s);
    hide Slot;
  }

  lemma MappedResize(d: seq<Block>, ino: Inode, e: seq<Block>, jno: Inode)
    requires ino.Valid() && jno.Valid() && jno.size == ino.size && Mapped(d, ino)
    requires forall s | 0 <= s < NSLOT :: Slot(e, jno, s) == Slot(d, ino, s)
    ensures Mapped(e, jno)
  {
    hide Slot;
  }

  lemma OnlyFileSize(d0: seq<Block>, ds0: seq<Inode>, d: seq<Block>, ds: seq<Inode>, i: nat, file: seq<Byte>, off: nat,
                     src: seq<Byte>)
    requires off <= |file| && OnlyFile(d0, ds0, d, ds, i, Overwrite(file, off, src))
    ensures |ds| == |ds0| && i < |ds| && ds[i].Valid() && Content(d, ds[i]) == Overwrite(file, off, src)
    ensures off + |src| <= ds[i].size
  {
  }

  lemma OnlyFileKind(d0: seq<Block>, ds0: seq<Inode>, d: seq<Block>, ds: seq<Inode>, i: nat, bytes: seq<Byte>)
    requires OnlyFile(d0, ds0, d, ds, i, bytes)
    ensures |ds| == |ds0| && i < |ds| && ds[i].kind == ds0[i].kind
  {
    hide Content;
  }

  /** What itrunc may log, counted. */
  lemma MapsSize(g: Geometry, lg0: set<nat>, lg: set<nat>, x: nat)
    requires lg <= lg0 + Maps(g) + {x}
    ensures |Maps(g)| == g.size / BITS + 1 && |lg - lg0| <= g.size / BITS + 2
  {
    RangeSize(g.bmapstart, g.bmapstart + g.size / BITS + 1);
    assert Maps(g) == Range(g.bmapstart, g.bmapstart + g.size / BITS + 1);
    SubsetSize(lg - lg0, Maps(g) + {x});
  }

  ghost function Range(a: nat, b: nat): set<nat> {
    set x: nat | x < b && From(a, x)
  }

  predicate From(a: nat, x: nat) { a <= x }

  lemma {:induction false} RangeSize(a: nat, b: nat)
    requires a <= b
    ensures |Range(a, b)| == b - a
    decreases b
  {
    if a == b {
      assert Range(a, b) == {};
    } else {
      RangeSize(a, b - 1);
      assert Range(a, b) == Range(a, b - 1) + {b - 1};
    }
  }

  /** Every file holds what it held. */
  ghost predicate SameContents(d: seq<Block>, ds: seq<Inode>, e: seq<Block>, es: seq<Inode>) {
    |es| == |ds| && forall j | 0 <= j < |ds| :: ds[j].Valid() && es[j].Valid() && Content(e, es[j]) == Content(d, ds[j])
  }

  /** Inodes not in use have no blocks, as iput leaves them. */
  ghost predicate FreeBlank(ds: seq<Inode>) {
    forall j | 0 <= j < |ds| && ds[j].kind == 0 :: ds[j].size == 0 && ds[j].addrs == seq(NDIRECT + 1, _ => 0)
  }

  lemma BlankInode(ds: seq<Inode>, i: nat, kind: nat)
    requires FreeBlank(ds) && i < |ds| && ds[i].kind == 0 && kind < 0x1_0000
    ensures var ino := NoInode().(kind := kind); ino.Valid() && ino.size == ds[i].size && ino.addrs == ds[i].addrs
  {
  }
}
