/** Reading and writing files through their blocks: the steps of readi and writei. */
module FsBytes {
  import opened Blocks
  import opened FsLayout
  import opened FsAlloc

  const MAXOPBLOCKS: nat := 10
  const CHUNK: nat := 1536       // filewrite's max: ((MAXOPBLOCKS-1-1-2) / 2) * 512

  /** Overwrite-and-extend: what a write of src at offset off makes of a file's bytes. */
  function Overwrite(file: seq<Byte>, off: nat, src: seq<Byte>): (r: seq<Byte>)
    requires off <= |file|
    ensures |r| == if off + |src| > |file| then off + |src| else |file|
  {
    if off + |src| >= |file| then file[..off] + src else file[..off] + src + file[off + |src|..]
  }

  lemma OverwriteAt(file: seq<Byte>, off: nat, src: seq<Byte>, k: nat)
    requires off <= |file| && k < |Overwrite(file, off, src)|
    ensures Overwrite(file, off, src)[k] == if off <= k < off + |src| then src[k - off] else file[k]
  {
  }

  /** The block v with src stored at p. */
  function Patch(v: Block, p: nat, src: seq<Byte>): (r: Block)
    requires p + |src| <= BSIZE
  {
    v[..p] + src + v[p + |src|..]
  }

  /** writei after storing the first tot bytes of src at off: (d0, ds0) was the state at the call. */
  ghost predicate Written(g: Geometry, d0: seq<Block>, ds0: seq<Inode>, d: seq<Block>, ds: seq<Inode>,
                          i: nat, off: nat, src: seq<Byte>, tot: nat)
  {
    && g.Valid() && |d| == |d0| == g.size && i < |ds0| && |ds| == |ds0| && tot <= |src|
      && off + |src| <= MAXFILE * BSIZE
    && (forall j | 0 <= j < |ds0| :: ds0[j].Valid() && ds[j].Valid())
    && (forall j | 0 <= j < |ds0| && j != i :: ds[j] == ds0[j]) && ds[i] == ds0[i].(addrs := ds[i].addrs)
    && (forall x | 0 <= x < g.bmapstart :: d[x] == d0[x])
    && (forall j | 0 <= j < |ds0| && j != i :: SameBytes(d0, ds0[j], d, ds[j]))
    && (forall k | 0 <= k < MAXFILE * BSIZE ::
          ByteAt(d, ds[i], k) == if off <= k < off + tot then src[k - off] else ByteAt(d0, ds0[i], k))
    && (forall j, s | 0 <= j < |ds0| && 0 <= s < NSLOT ::
      Slot(d0, ds0[j], s) != 0 ==> Slot(d, ds[j], s) == Slot(d0, ds0[j], s))
    && (forall bn | 0 <= bn < MAXFILE && tot > 0 && off / BSIZE <= bn && bn * BSIZE < off + tot ::
      Slot(d, ds[i], DataSlot(bn)) != 0)
    && (off + |src| <= ds0[i].size && Mapped(d0, ds0[i]) ==> ds[i] == ds0[i])
  }

  lemma WrittenStart(g: Geometry, d: seq<Block>, ds: seq<Inode>, own: map<nat, (nat, nat)>, i: nat, off: nat,
                     src: seq<Byte>)
    requires Owned(g, d, ds, own, {}) && i < |ds| && off + |src| <= MAXFILE * BSIZE
    ensures Written(g, d, ds, d, ds, i, off, src, 0)
  {
    OwnedShape(g, d, ds, own, {});
    hide Owned, Slot, ByteAt;
  }

  lemma WrittenStat(g: Geometry, d0: seq<Block>, ds0: seq<Inode>, d: seq<Block>, ds: seq<Inode>, i: nat, off: nat,
                    src: seq<Byte>, tot: nat)
    requires Written(g, d0, ds0, d, ds, i, off, src, tot)
    ensures |ds| == |ds0| && i < |ds| && ds[i].size == ds0[i].size
  {
    hide Slot, ByteAt, Mapped;
  }

  lemma WrittenBmap(g: Geometry, d0: seq<Block>, ds0: seq<Inode>, d: seq<Block>, ds: seq<Inode>, i: nat, off: nat,
                    src: seq<Byte>, tot: nat, lg: set<nat>, e: seq<Block>, es: seq<Inode>, lg': set<nat>, addr: nat,
                    bm: set<nat>)
    requires Written(g, d0, ds0, d, ds, i, off, src, tot) && tot < |src|
    requires BmapPost(g, d, ds, lg, e, es, lg', i, (off + tot) / BSIZE, addr, bm)
    ensures Written(g, d0, ds0, e, es, i, off, src, tot)
  {
    hide Slot, ByteAt;
  }

  /** The bytes of file i after one block of it was patched. */
  lemma PatchedBytes(g: Geometry, d: seq<Block>, ds: seq<Inode>, own: map<nat, (nat, nat)>, i: nat, o: nat,
                     src: seq<Byte>)
    requires Owned(g, d, ds, own, {}) && i < |ds| && o < MAXFILE * BSIZE && o % BSIZE + |src| <= BSIZE
    requires Slot(d, ds[i], DataSlot(o / BSIZE)) != 0
    ensures Slot(d, ds[i], DataSlot(o / BSIZE)) < |d|
    ensures var addr := Slot(d, ds[i], DataSlot(o / BSIZE));
            var e := d[addr := Patch(d[addr], o % BSIZE, src)];
            && g.datastart <= addr && Owned(g, e, ds, own, {})
            && (forall j | 0 <= j < |ds| && j != i :: SameBytes(d, ds[j], e, ds[j]))
            && (forall j, s | 0 <= j < |ds| && 0 <= s < NSLOT :: Slot(e, ds[j], s) == Slot(d, ds[j], s))
            && (forall k | 0 <= k < MAXFILE * BSIZE ::
              ByteAt(e, ds[i], k) == if o <= k < o + |src| then src[k - o] else ByteAt(d, ds[i], k))
  {
    hide Slot, Owned;
    OwnedShape(g, d, ds, own, {});
    var bn, p := o / BSIZE, o % BSIZE;
    var addr := Slot(d, ds[i], DataSlot(bn));
    SlotInRange(g, d, ds, own, {}, i, DataSlot(bn));
    var v := Patch(d[addr], p, src);
    StoreBytes(g, d, ds, own, {}, i, bn, v);
    var e := d[addr := v];
    forall k | 0 <= k < MAXFILE * BSIZE
      ensures ByteAt(e, ds[i], k) == if o <= k < o + |src| then src[k - o] else ByteAt(d, ds[i], k)
    {
      assert k == BSIZE * (k / BSIZE) + k % BSIZE && o == BSIZE * bn + p;
      if k / BSIZE == bn {
        assert ByteAt(e, ds[i], k) == v[k % BSIZE];
        assert ByteAt(d, ds[i], k) == d[addr][k % BSIZE];
      }
    }
  }

  lemma BmapAddress(g: Geometry, d: seq<Block>, ds: seq<Inode>, lg: set<nat>, e: seq<Block>, es: seq<Inode>,
                    lg': set<nat>, i: nat, bn: nat, addr: nat, bm: set<nat>)
    requires BmapPost(g, d, ds, lg, e, es, lg', i, bn, addr, bm)
    ensures bn < MAXFILE && |es| == |ds| && |e| == |d| == g.size && i < |es| && es[i].Valid() && ds[i].Valid()
    ensures addr == Slot(e, es[i], DataSlot(bn)) && 0 < addr < |e|
  {
    KeptSlot(g, d, ds, e, es, i, DataSlot(bn));
    hide Slot;
  }

  /** A write that starts inside a block starts in a block the file has. */
  lemma FirstMapped(g: Geometry, d0: seq<Block>, ds0: seq<Inode>, d: seq<Block>, ds: seq<Inode>, i: nat, off: nat,
                    src: seq<Byte>)
    requires Written(g, d0, ds0, d, ds, i, off, src, 0) && |src| > 0 && off <= ds0[i].size && Mapped(d0, ds0[i])
    ensures off % BSIZE != 0 ==> Slot(d, ds[i], DataSlot(off / BSIZE)) != 0
  {
    hide ByteAt, Slot;
    if off % BSIZE != 0 {
      assert Slot(d0, ds0[i], DataSlot(off / BSIZE)) != 0;
    }
  }

  lemma WrittenStore(g: Geometry, d0: seq<Block>, ds0: seq<Inode>, d: seq<Block>, ds: seq<Inode>,
                     own: map<nat, (nat, nat)>, i: nat, off: nat, src: seq<Byte>, tot: nat, m: nat)
    requires Written(g, d0, ds0, d, ds, i, off, src, tot) && Owned(g, d, ds, own, {})
    requires 0 < m && tot + m <= |src| && (off + tot) % BSIZE + m <= BSIZE
    requires Slot(d, ds[i], DataSlot((off + tot) / BSIZE)) != 0
    ensures Slot(d, ds[i], DataSlot((off + tot) / BSIZE)) < |d|
    ensures var addr := Slot(d, ds[i], DataSlot((off + tot) / BSIZE));
            var e := d[addr := Patch(d[addr], (off + tot) % BSIZE, src[tot..tot + m])];
            Owned(g, e, ds, own, {}) && Written(g, d0, ds0, e, ds, i, off, src, tot + m)
  {
    hide Slot, Owned, Mapped, ByteAt, Patch, Inodes;
    var o := off + tot;
    OwnedShape(g, d, ds, own, {});
    PatchedBytes(g, d, ds, own, i, o, src[tot..tot + m]);
    var bn := o / BSIZE;
    var addr := Slot(d, ds[i], DataSlot(bn));
    var e := d[addr := Patch(d[addr], o % BSIZE, src[tot..tot + m])];
    forall b | 0 <= b < MAXFILE && off / BSIZE <= b && b * BSIZE < off + tot + m
      ensures Slot(e, ds[i], DataSlot(b)) != 0 {
      if tot == 0 || b * BSIZE >= off + tot { assert b == bn; }
    }
  }

  /** What writei has done so far, counted: data and bitmap blocks, turns of its loop, new data blocks. */
  datatype Tally = Tally(data: set<nat>, maps: set<nat>, iter: nat, grown: nat)

  /** What holds between two turns of writei's loop. */
  ghost predicate Writing(g: Geometry, d0: seq<Block>, ds0: seq<Inode>, lg0: set<nat>, d: seq<Block>, ds: seq<Inode>,
                          own: map<nat, (nat, nat)>, lg: set<nat>, i: nat, off: nat, src: seq<Byte>, tot: nat, t: Tally)
  {
    && Owned(g, d, ds, own, {}) && Written(g, d0, ds0, d, ds, i, off, src, tot)
    && off <= ds0[i].size && Mapped(d0, ds0[i])
    && Logged(lg, lg0, t.data, t.maps, ds[i], Direct(off, |src|)) && MapsBound(ds0[i], ds[i], t.maps, t.grown)
    && Counted(off, |src|, tot, t) && (Direct(off, |src|) ==> SameIndirect(ds0[i], ds[i]))
  }

  /** The write keeps to the direct blocks. */
  predicate Direct(off: nat, n: nat) { off + n <= NDIRECT * BSIZE }

  predicate SameIndirect(ino: Inode, jno: Inode) {
    |ino.addrs| == |jno.addrs| == NDIRECT + 1 && jno.addrs[NDIRECT] == ino.addrs[NDIRECT]
  }

  ghost predicate Counted(off: nat, n: nat, tot: nat, t: Tally) {
    && |t.data| <= t.iter && t.grown <= t.iter - (if off % BSIZE != 0 && t.iter > 0 then 1 else 0)
    && (t.iter == 0 <==> tot == 0)
    && (0 < tot < n ==> (off + tot) % BSIZE == 0 && tot == BSIZE * t.iter - off % BSIZE)
    && (tot == n && t.iter > 0 ==> BSIZE * (t.iter - 1) - off % BSIZE < n <= BSIZE * t.iter - off % BSIZE)
  }

  lemma WritingStart(g: Geometry, d: seq<Block>, ds: seq<Inode>, own: map<nat, (nat, nat)>, lg: set<nat>, i: nat,
                     off: nat, src: seq<Byte>)
    returns (t: Tally)
    requires Owned(g, d, ds, own, {}) && Synced(g, d, ds) && i < |ds| && off <= ds[i].size
    requires off + |src| <= MAXFILE * BSIZE
    ensures Writing(g, d, ds, lg, d, ds, own, lg, i, off, src, 0, t)
  {
    t := Tally({}, {}, 0, 0);
    WrittenStart(g, d, ds, own, i, off, src);
    hide Owned, Written, Mapped;
  }

  lemma WritingParts(g: Geometry, d0: seq<Block>, ds0: seq<Inode>, lg0: set<nat>, d: seq<Block>, ds: seq<Inode>,
                     own: map<nat, (nat, nat)>, lg: set<nat>, i: nat, off: nat, src: seq<Byte>, tot: nat, t: Tally)
    requires Writing(g, d0, ds0, lg0, d, ds, own, lg, i, off, src, tot, t)
    ensures Owned(g, d, ds, own, {}) && Written(g, d0, ds0, d, ds, i, off, src, tot) && i < |ds| == |ds0|
    ensures tot < |src| ==> (off + tot) / BSIZE < MAXFILE
  {
    hide Owned, Mapped;
    if tot < |src| { InsideFile(g, d0, ds0, d, ds, i, off, src, tot); }
  }

  /** The file has every block that n bytes from off on touch. */
  predicate AllThere(d: seq<Block>, ino: Inode, off: nat, n: nat)
    requires ino.Valid()
  {
    forall bn | 0 <= bn < MAXFILE && off / BSIZE <= bn && bn * BSIZE < off + n :: Slot(d, ino, DataSlot(bn)) != 0
  }

  lemma InsideThere(d: seq<Block>, ino: Inode, off: nat, n: nat)
    requires ino.Valid() && Mapped(d, ino) && off + n <= ino.size
    ensures AllThere(d, ino, off, n)
  {
    hide Slot;
  }

  lemma SyncedMapped(g: Geometry, d: seq<Block>, ds: seq<Inode>, i: nat)
    requires Synced(g, d, ds) && i < |ds|
    ensures ds[i].Valid() && Mapped(d, ds[i])
  {
    hide Slot;
  }

  /** Where the file has every block the write touches, none need be found. */
  lemma WritingInside(g: Geometry, d0: seq<Block>, ds0: seq<Inode>, lg0: set<nat>, d: seq<Block>, ds: seq<Inode>,
                      own: map<nat, (nat, nat)>, lg: set<nat>, i: nat, off: nat, src: seq<Byte>, tot: nat, t: Tally)
    requires Writing(g, d0, ds0, lg0, d, ds, own, lg, i, off, src, tot, t) && tot < |src|
    ensures i < |ds| == |ds0| && ds[i].Valid() && (off + tot) / BSIZE < MAXFILE
    ensures ds0[i].Valid() && (AllThere(d0, ds0[i], off, |src|) ==> Slot(d, ds[i], DataSlot((off + tot) / BSIZE)) != 0)
  {
    InsideFile(g, d0, ds0, d, ds, i, off, src, tot);
    hide Owned, ByteAt, Slot;
    var bn := (off + tot) / BSIZE;
    if AllThere(d0, ds0[i], off, |src|) { assert Slot(d0, ds0[i], DataSlot(bn)) != 0; }
  }

  /** One turn of the loop, all told. */
  lemma StepDone(g: Geometry, d0: seq<Block>, ds0: seq<Inode>, lg0: set<nat>, d: seq<Block>, ds: seq<Inode>,
                 own0: map<nat, (nat, nat)>, lg: set<nat>, e: seq<Block>, es: seq<Inode>, own: map<nat, (nat, nat)>,
                 lg': set<nat>, i: nat, off: nat, src: seq<Byte>, tot: nat, m: nat, t0: Tally, addr: nat, bm: set<nat>)
    returns (t: Tally)
    requires Writing(g, d0, ds0, lg0, d, ds, own0, lg, i, off, src, tot, t0)
    requires tot < |src| && BmapPost(g, d, ds, lg, e, es, lg', i, (off + tot) / BSIZE, addr, bm)
    requires Owned(g, e, es, own, {})
    requires m == if |src| - tot < BSIZE - (off + tot) % BSIZE then |src| - tot else BSIZE - (off + tot) % BSIZE
    ensures addr < |e|
    ensures var f := e[addr := Patch(e[addr], (off + tot) % BSIZE, src[tot..tot + m])];
            Writing(g, d0, ds0, lg0, f, es, own, lg' + {addr}, i, off, src, tot + m, t)
  {
    hide Owned, Written, BmapPost, Slot, ByteAt, Patch, Mapped, Logged, MapsBound, Inodes, Counted;
    var bn := (off + tot) / BSIZE;
    assert Direct(off, |src|) ==> bn < NDIRECT;
    WrittenBmap(g, d0, ds0, d, ds, i, off, src, tot, lg, e, es, lg', addr, bm);
    StepInodes(g, d0, ds0, d, ds, i, off, src, tot);
    LoggedBmap(g, ds0[i], Direct(off, |src|), d, ds, i, bn, lg, lg0, t0.data, t0.maps, t0.grown, e, es, lg', addr, bm);
    BmapAddress(g, d, ds, lg, e, es, lg', i, bn, addr, bm);
    if tot == 0 { FirstMapped(g, d0, ds0, d, ds, i, off, src); }
    var added := if Slot(d, ds[i], DataSlot(bn)) == 0 then 1 else 0;
    t := Tally(t0.data + {addr}, t0.maps + bm, t0.iter + 1, t0.grown + added);
    WrittenStore(g, d0, ds0, e, es, own, i, off, src, tot, m);
    CountedMore(off, |src|, tot, m, t0, t);
  }

  lemma StepInodes(g: Geometry, d0: seq<Block>, ds0: seq<Inode>, d: seq<Block>, ds: seq<Inode>, i: nat, off: nat,
                   src: seq<Byte>, tot: nat)
    requires Written(g, d0, ds0, d, ds, i, off, src, tot)
    ensures i < |ds| == |ds0| && ds[i].Valid() && ds0[i].Valid()
  {
    hide Slot, ByteAt, Mapped;
  }

  lemma CountedMore(off: nat, n: nat, tot: nat, m: nat, t0: Tally, t: Tally)
    requires Counted(off, n, tot, t0) && tot < n && t.iter == t0.iter + 1 && |t.data| <= |t0.data| + 1
    requires m == if n - tot < BSIZE - (off + tot) % BSIZE then n - tot else BSIZE - (off + tot) % BSIZE
    requires t0.grown <= t.grown <= t0.grown + 1 && (tot == 0 && off % BSIZE != 0 ==> t.grown == t0.grown)
    ensures Counted(off, n, tot + m, t)
  {
  }

  // ---------- whole files ----------

  /** Files have no holes, and every inode is on the disk as it is in memory. */
  ghost predicate Synced(g: Geometry, d: seq<Block>, ds: seq<Inode>)
  {
    && g.Valid() && |d| == g.size && |ds| == g.ninodes
    && (forall j | 0 <= j < |ds| :: ds[j].Valid() && Mapped(d, ds[j]))
    && (forall j | 0 <= j < |ds| :: DiskInode(g, d, j) == ds[j])
  }

  /** File i now holds `bytes`; its other attributes, and every other file, are as before. */
  ghost predicate OnlyFile(d0: seq<Block>, ds0: seq<Inode>, d: seq<Block>, ds: seq<Inode>, i: nat, bytes: seq<Byte>)
  {
    && i < |ds0| && |ds| == |ds0| && (forall j | 0 <= j < |ds0| :: ds0[j].Valid() && ds[j].Valid())
    && (forall j | 0 <= j < |ds0| && j != i :: ds[j] == ds0[j] && Content(d, ds[j]) == Content(d0, ds0[j]))
    && ds[i] == ds0[i].(size := ds[i].size, addrs := ds[i].addrs) && Content(d, ds[i]) == bytes
  }

  /** The disk after iupdate(i). */
  function Updated(g: Geometry, d: seq<Block>, i: nat, ino: Inode): (e: seq<Block>)
    requires g.Valid() && |d| == g.size && i < g.ninodes && ino.Valid()
    ensures |e| == |d|
  {
    d[g.IBlock(i) := Encode(d[g.IBlock(i)], i % IPB, ino)]
  }

  lemma UpdateKeeps(g: Geometry, d: seq<Block>, ds: seq<Inode>, own: map<nat, (nat, nat)>, extra: set<nat>, i: nat)
    requires Owned(g, d, ds, own, extra) && i < |ds|
    ensures var e := Updated(g, d, i, ds[i]);
            && Owned(g, e, ds, own, extra)
            && (forall j | 0 <= j < |ds| :: DiskInode(g, e, j) == if j == i then ds[i] else DiskInode(g, d, j))
            && (forall j | 0 <= j < |ds| :: SameBytes(d, ds[j], e, ds[j]))
            && (forall j, s | 0 <= j < |ds| && 0 <= s < NSLOT :: Slot(e, ds[j], s) == Slot(d, ds[j], s))
  {
    hide Owned, Encode, Decode, Slot, ByteAt, InUse, Inodes;
    OwnedShape(g, d, ds, own, extra);
    OwnRange(g, d, ds, own, extra);
    var e := Updated(g, d, i, ds[i]);
    Store(g, d, ds, own, extra, g.IBlock(i), Encode(d[g.IBlock(i)], i % IPB, ds[i]));
    Untouched(g, d, ds, own, extra, e);
    forall j | 0 <= j < |ds| ensures DiskInode(g, e, j) == if j == i then ds[i] else DiskInode(g, d, j) {
      EncodeDecode(d[g.IBlock(i)], i % IPB, ds[i], j % IPB);
      assert i == IPB * (i / IPB) + i % IPB && j == IPB * (j / IPB) + j % IPB;
    }
  }

  lemma SameContent(d: seq<Block>, ino: Inode, e: seq<Block>, jno: Inode)
    requires ino.Valid() && jno.Valid() && SameBytes(d, ino, e, jno) && ino.size == jno.size
    ensures Content(d, ino) == Content(e, jno)
  {
    hide ByteAt;
  }

  lemma Resize(d: seq<Block>, ino: Inode, size: nat)
    requires ino.Valid() && ino.(size := size).Valid()
    ensures forall s | 0 <= s < NSLOT :: Slot(d, ino.(size := size), s) == Slot(d, ino, s)
    ensures SameBytes(d, ino, d, ino.(size := size))
  {
    hide WordAt;
  }

  /** The bytes of file i once all of src is stored. */
  lemma WrittenContent(g: Geometry, d0: seq<Block>, ds0: seq<Inode>, d: seq<Block>, ds: seq<Inode>, i: nat, off: nat,
                       src: seq<Byte>)
    requires Written(g, d0, ds0, d, ds, i, off, src, |src|) && off <= ds0[i].size
    ensures var size := if off + |src| > ds0[i].size then off + |src| else ds0[i].size;
            && ds[i].(size := size).Valid()
            && Content(d, ds[i].(size := size)) == Overwrite(Content(d0, ds0[i]), off, src)
  {
    hide Slot, ByteAt, Mapped, Overwrite;
    var size := if off + |src| > ds0[i].size then off + |src| else ds0[i].size;
    var jno := ds[i].(size := size);
    Resize(d, ds[i], size);
    forall k | 0 <= k < size ensures Content(d, jno)[k] == Overwrite(Content(d0, ds0[i]), off, src)[k] {
      OverwriteAt(Content(d0, ds0[i]), off, src, k);
      assert Content(d, jno)[k] == ByteAt(d, jno, k) == ByteAt(d, ds[i], k);
      if k < ds0[i].size { assert Content(d0, ds0[i])[k] == ByteAt(d0, ds0[i], k); }
    }
  }

  /** No holes below the new end of file. */
  lemma WrittenMapped(g: Geometry, d0: seq<Block>, ds0: seq<Inode>, d: seq<Block>, ds: seq<Inode>, i: nat, off: nat,
                      src: seq<Byte>)
    requires Written(g, d0, ds0, d, ds, i, off, src, |src|) && off <= ds0[i].size
    requires forall j | 0 <= j < |ds0| :: Mapped(d0, ds0[j])
    ensures forall j | 0 <= j < |ds0| :: Mapped(d, ds[j])
    ensures |src| > 0 ==> ds[i].(size := off + |src|).Valid() && Mapped(d, ds[i].(size := off + |src|))
  {
    hide ByteAt, Slot;
    if |src| > 0 {
      var jno := ds[i].(size := off + |src|);
      Resize(d, ds[i], off + |src|);
      forall bn | 0 <= bn < MAXFILE && bn * BSIZE < off + |src| ensures Slot(d, jno, DataSlot(bn)) != 0 {
        assert Slot(d, jno, DataSlot(bn)) == Slot(d, ds[i], DataSlot(bn));
        if bn < off / BSIZE { assert Slot(d0, ds0[i], DataSlot(bn)) != 0; }
      }
    }
  }

  lemma DiskInodeFrame(g: Geometry, d: seq<Block>, e: seq<Block>, j: nat)
    requires g.Valid() && |d| == |e| == g.size && j < g.ninodes && forall x | 0 <= x < g.bmapstart :: e[x] == d[x]
    ensures DiskInode(g, e, j) == DiskInode(g, d, j)
  {
  }

  /** writei ending inside the old file: nothing but the bytes changed. */
  lemma WriteInside(g: Geometry, d0: seq<Block>, ds0: seq<Inode>, d: seq<Block>, ds: seq<Inode>, i: nat, off: nat,
                    src: seq<Byte>)
    requires Written(g, d0, ds0, d, ds, i, off, src, |src|) && off + |src| <= ds0[i].size && Synced(g, d0, ds0)
    ensures Synced(g, d, ds) && OnlyFile(d0, ds0, d, ds, i, Overwrite(Content(d0, ds0[i]), off, src))
  {
    hide Slot, ByteAt, Content, Decode;
    WrittenContent(g, d0, ds0, d, ds, i, off, src);
    WrittenMapped(g, d0, ds0, d, ds, i, off, src);
    assert ds == ds0;
    forall j | 0 <= j < |ds0| ensures DiskInode(g, d, j) == ds[j] { DiskInodeFrame(g, d0, d, j); }
    forall j | 0 <= j < |ds0| && j != i
      ensures Content(d, ds[j]) == Content(d0, ds0[j]) { SameContent(d0, ds0[j], d, ds[j]); }
    assert ds[i] == ds[i].(size := ds0[i].size);
  }

  /** writei past the old end: size grows and iupdate stores the inode. */
  lemma WritePast(g: Geometry, d0: seq<Block>, ds0: seq<Inode>, d: seq<Block>, ds: seq<Inode>,
                  own: map<nat, (nat, nat)>, i: nat, off: nat, src: seq<Byte>)
    requires Written(g, d0, ds0, d, ds, i, off, src, |src|) && off <= ds0[i].size < off + |src| && Synced(g, d0, ds0)
    requires Owned(g, d, ds, own, {})
    ensures ds[i].(size := off + |src|).Valid()
    ensures var jno := ds[i].(size := off + |src|);
            var js, e := ds[i := jno], Updated(g, d, i, jno);
            Owned(g, e, js, own, {}) && Synced(g, e, js)
              && OnlyFile(d0, ds0, e, js, i, Overwrite(Content(d0, ds0[i]), off, src))
  {
    hide Slot, ByteAt, Content, Decode, Updated, Owned, Inodes, Mapped;
    OwnedShape(g, d, ds, own, {});
    WrittenContent(g, d0, ds0, d, ds, i, off, src);
    WrittenMapped(g, d0, ds0, d, ds, i, off, src);
    var jno := ds[i].(size := off + |src|);
    var js := ds[i := jno];
    Restat(g, d, ds, own, {}, i, jno);
    UpdateKeeps(g, d, js, own, {}, i);
    var e := Updated(g, d, i, jno);
    forall j | 0 <= j < |ds0| ensures Mapped(e, js[j]) { MappedFrame(d, e, js[j]); }
    forall j | 0 <= j < |ds0| ensures DiskInode(g, e, j) == js[j] { DiskInodeFrame(g, d0, d, j); }
    forall j | 0 <= j < |ds0|
      ensures Content(e, js[j]) == if j == i then Overwrite(Content(d0, ds0[i]), off, src) else Content(d0, ds0[j]) {
      SameContent(d, js[j], e, js[j]);
      if j != i { SameContent(d0, ds0[j], d, ds[j]); }
    }
  }

  lemma MappedFrame(d: seq<Block>, e: seq<Block>, ino: Inode)
    requires ino.Valid() && Mapped(d, ino) && forall s | 0 <= s < NSLOT :: Slot(e, ino, s) == Slot(d, ino, s)
    ensures Mapped(e, ino)
  {
    hide Slot;
  }

  // ---------- reading ----------

  lemma ContentSize(d: seq<Block>, ino: Inode)
    requires ino.Valid()
    ensures |Content(d, ino)| == ino.size
  {
  }

  lemma ReadMapped(g: Geometry, d: seq<Block>, ds: seq<Inode>, i: nat, o: nat)
    requires Synced(g, d, ds) && i < |ds| && ds[i].Valid() && o < ds[i].size
    ensures o / BSIZE < MAXFILE && Slot(d, ds[i], DataSlot(o / BSIZE)) != 0
  {
    hide Slot, Decode;
  }

  /** bmap of a block that is there. */
  lemma BmapFound(g: Geometry, d: seq<Block>, ds: seq<Inode>, lg: set<nat>, e: seq<Block>, es: seq<Inode>,
                  lg': set<nat>, i: nat, bn: nat, addr: nat, bm: set<nat>)
    requires BmapPost(g, d, ds, lg, e, es, lg', i, bn, addr, bm) && i < |ds| && ds[i].Valid()
    requires Slot(d, ds[i], DataSlot(bn)) != 0
    ensures e == d && es == ds && lg' == lg && addr == Slot(d, ds[i], DataSlot(bn)) && 0 < addr < |d|
  {
    hide Slot;
  }

  lemma ReadSlice(d: seq<Block>, ino: Inode, o: nat, m: nat, addr: nat)
    requires ino.Valid() && o + m <= ino.size && o % BSIZE + m <= BSIZE && o / BSIZE < MAXFILE && m > 0
    requires addr == Slot(d, ino, DataSlot(o / BSIZE)) && 0 < addr < |d|
    ensures Content(d, ino)[o..o + m] == d[addr][o % BSIZE..o % BSIZE + m]
  {
    hide Slot;
    var p, a, b := o % BSIZE, Content(d, ino)[o..o + m], d[addr][o % BSIZE..o % BSIZE + m];
    forall k | 0 <= k < m ensures a[k] == b[k] {
      var x := o + k;
      assert x / BSIZE == o / BSIZE && x % BSIZE == p + k;
      assert a[k] == ByteAt(d, ino, x);
    }
  }

  /** A read of what was just written gives it back, and a read of anything else what was there. */
  lemma ReadAfterWrite(file: seq<Byte>, off: nat, src: seq<Byte>)
    requires off <= |file|
    ensures Overwrite(file, off, src)[off..off + |src|] == src
    ensures forall a, b | 0 <= a <= b <= |file| && (b <= off || off + |src| <= a) ::
      Overwrite(file, off, src)[a..b] == file[a..b]
  {
  }

  lemma TracedNone(d: seq<Block>, lg: set<nat>)
    ensures Traced(d, lg, d, lg)
  {
  }

  lemma TracedStore(d0: seq<Block>, lg0: set<nat>, d: seq<Block>, lg: set<nat>, x: nat, v: Block)
    requires Traced(d0, lg0, d, lg) && x < |d|
    ensures Traced(d0, lg0, d[x := v], lg + {x})
  {
  }

  /** What is still to be written lies within the largest file. */
  lemma InsideFile(g: Geometry, d0: seq<Block>, ds0: seq<Inode>, d: seq<Block>, ds: seq<Inode>, i: nat, off: nat,
                   src: seq<Byte>, tot: nat)
    requires Written(g, d0, ds0, d, ds, i, off, src, tot) && tot < |src|
    ensures (off + tot) / BSIZE < MAXFILE
  {
    hide Slot, ByteAt, Mapped;
  }

  /** The disk holds these inodes, whole and synced, with no block in two places. */
  ghost predicate Carries(g: Geometry, d: seq<Block>, ds: seq<Inode>) {
    Synced(g, d, ds) && exists own :: Owned(g, d, ds, own, {})
  }

  ghost predicate FileSystem(g: Geometry, d: seq<Block>) {
    exists ds :: Carries(g, d, ds)
  }

  /** Each transaction takes one file system to another, changes only blocks it logs, and logs no more than an operation
      may. */
  ghost predicate Transactions(g: Geometry, d0: seq<Block>, txns: seq<set<nat>>, states: seq<seq<Block>>) {
    && |states| == |txns| + 1 && states[0] == d0
    && (forall k | 0 <= k < |states| :: FileSystem(g, states[k]))
    && (forall k | 0 <= k < |txns| :: |txns[k]| <= MAXOPBLOCKS && Traced(states[k], {}, states[k + 1], txns[k]))
  }

  lemma TransactionsNone(g: Geometry, d: seq<Block>, ds: seq<Inode>, own: map<nat, (nat, nat)>)
    requires Owned(g, d, ds, own, {}) && Synced(g, d, ds)
    ensures Transactions(g, d, [], [d])
  {
    hide Owned, Synced;
    assert Carries(g, d, ds);
  }

  lemma TransactionMore(g: Geometry, d0: seq<Block>, txns: seq<set<nat>>, states: seq<seq<Block>>, d: seq<Block>,
                        ds: seq<Inode>, own: map<nat, (nat, nat)>, lg: set<nat>)
    requires Transactions(g, d0, txns, states) && Owned(g, d, ds, own, {}) && Synced(g, d, ds)
    requires Traced(states[|txns|], {}, d, lg) && |lg| <= MAXOPBLOCKS
    ensures Transactions(g, d0, txns + [lg], states + [d])
  {
    hide Owned, Synced, Traced;
    assert Carries(g, d, ds);
  }

  // ---------- blocks logged by one write ----------

  /** All that writei has logged so far: data blocks, bitmap blocks and, unless it keeps to the direct blocks, the
      indirect block. */
  ghost predicate Logged(lg: set<nat>, lg0: set<nat>, data: set<nat>, maps: set<nat>, ino: Inode, direct: bool)
  {
    && |ino.addrs| == NDIRECT + 1
    && lg <= lg0 + data + maps + (if direct || ino.addrs[NDIRECT] == 0 then {} else {ino.addrs[NDIRECT] as nat})
  }

  /** The bitmap blocks among them: one for each new data block, one for a new indirect block. */
  ghost predicate MapsBound(ino0: Inode, ino: Inode, maps: set<nat>, grown: nat)
  {
    && |ino0.addrs| == |ino.addrs| == NDIRECT + 1
    && |maps| <= grown + (if ino0.addrs[NDIRECT] == 0 && ino.addrs[NDIRECT] != 0 then 1 else 0)
    && (ino0.addrs[NDIRECT] != 0 ==> ino.addrs[NDIRECT] == ino0.addrs[NDIRECT])
  }

  lemma LoggedBmap(g: Geometry, ino0: Inode, direct: bool, d: seq<Block>, ds: seq<Inode>, i: nat, bn: nat, lg: set<nat>,
                   lg0: set<nat>, data: set<nat>, maps: set<nat>, grown: nat, e: seq<Block>, es: seq<Inode>,
                   lg': set<nat>, addr: nat, bm: set<nat>)
    requires i < |ds| && Logged(lg, lg0, data, maps, ds[i], direct) && MapsBound(ino0, ds[i], maps, grown)
    requires BmapPost(g, d, ds, lg, e, es, lg', i, bn, addr, bm) && (direct ==> bn < NDIRECT)
    ensures i < |es| && Logged(lg' + {addr}, lg0, data + {addr}, maps + bm, es[i], direct)
    ensures direct ==> |es[i].addrs| == |ds[i].addrs| == NDIRECT + 1 && es[i].addrs[NDIRECT] == ds[i].addrs[NDIRECT]
    ensures MapsBound(ino0, es[i], maps + bm, grown + if Slot(d, ds[i], DataSlot(bn)) == 0 then 1 else 0)
  {
    KeptSlot(g, d, ds, e, es, i, DataSlot(bn));
    hide Kept, WordAt;
    assert bn >= NDIRECT ==> es[i].addrs[NDIRECT] != 0;
    assert ds[i].addrs[NDIRECT] != 0 ==> es[i].addrs[NDIRECT] == ds[i].addrs[NDIRECT];
    hide Slot;
    assert |maps + bm| <= |maps| + |bm|;
  }

  /** How many blocks of a file n bytes from off on touch. */
  function Touched(off: nat, n: nat): nat {
    if n == 0 then 0 else (off % BSIZE + n + BSIZE - 1) / BSIZE
  }

  lemma TouchedIs(off: nat, n: nat, t: Tally)
    requires Counted(off, n, n, t)
    ensures t.iter == Touched(off, n)
  {
  }

  /** The most blocks writei logs apart from the inode's: each block it touches, a bitmap block for each that may be new
      and, past the direct blocks, the indirect block and a bitmap block for it. A block that is written from its middle
      on is not new. */
  function WriteCost(off: nat, n: nat): nat {
    2 * Touched(off, n) + (if Direct(off, n) then 0 else 2) - if off % BSIZE != 0 && n > 0 then 1 else 0
  }

  /** One chunk of filewrite stays within an operation's reservation. */
  lemma TenBlocks(off: nat, n: nat)
    requires n <= CHUNK
    ensures WriteCost(off, n) + 1 <= MAXOPBLOCKS
  {
  }

  lemma CostBound(g: Geometry, d0: seq<Block>, ds0: seq<Inode>, lg0: set<nat>, d: seq<Block>, ds: seq<Inode>,
                  own: map<nat, (nat, nat)>, lg: set<nat>, i: nat, off: nat, src: seq<Byte>, t: Tally)
    requires Writing(g, d0, ds0, lg0, d, ds, own, lg, i, off, src, |src|, t)
    ensures |lg - lg0| <= WriteCost(off, |src|)
    ensures |src| <= CHUNK ==> WriteCost(off, |src|) + 1 <= MAXOPBLOCKS
  {
    if |src| <= CHUNK { TenBlocks(off, |src|); }
    hide Owned, Written, Mapped;
    TouchedIs(off, |src|, t);
    var ino := ds[i];
    var ind := if Direct(off, |src|) || ino.addrs[NDIRECT] == 0 then {} else {ino.addrs[NDIRECT] as nat};
    var all := t.data + t.maps + ind;
    assert |all| <= |t.data| + |t.maps| + |ind|;
    SubsetSize(lg - lg0, all);
  }

  /** So many blocks have been logged, and block x besides. */
  ghost predicate Costs(lg: set<nat>, lg0: set<nat>, x: nat, cost: int) {
    |lg - lg0 - {x}| <= cost && |lg - lg0| <= cost + 1
  }

  lemma CostNone(lg: set<nat>, x: nat, off: nat, n: nat)
    ensures Costs(lg, lg, x, WriteCost(off, n))
  {
    assert lg - lg == {};
  }

  /** The inode's block on top. */
  lemma CostInode(lg: set<nat>, lg0: set<nat>, x: nat, cost: nat)
    requires |lg - lg0| <= cost
    ensures Costs(lg, lg0, x, cost) && Costs(lg + {x}, lg0, x, cost)
    ensures |lg - lg0| <= cost + 1 && |lg + {x} - lg0| <= cost + 1
  {
    SubsetSize(lg + {x} - lg0 - {x}, lg - lg0);
    SubsetSize(lg - lg0 - {x}, lg - lg0);
    SubsetSize(lg + {x} - lg0, (lg - lg0) + {x});
  }

  lemma SubsetSize(a: set<nat>, b: set<nat>)
    requires a <= b
    ensures |a| <= |b|
  {
    assert b == a + (b - a);
  }
}
