/** fs.c above the log: block allocation, block maps, and the bytes of files. */
module Fs {
  import opened Blocks
  import opened FsLayout
  import opened FsAlloc
  import opened FsBytes
  import opened FsFree

  const T_DEV: nat := 3

  class Fs {
    const g: Geometry
    var disk: seq<Block>            // blocks as bread returns them
    var ip: seq<Inode>              // in-memory inodes, by inode number
    ghost var own: map<nat, (nat, nat)>
    ghost var logged: set<nat>      // blocks passed to log_write in this operation

    ghost predicate Sound(extra: set<nat>)
      reads this
    {
      Owned(g, disk, ip, own, extra)
    }

    /** Between operations. */
    ghost predicate Valid()
      reads this
    {
      Sound({}) && Synced(g, disk, ip)
    }

    /** mkfs without any file: the metadata blocks are marked, all other blocks and all inodes are free. */
    constructor (g: Geometry)
      requires g.Valid()
      ensures Valid() && this.g == g && logged == {} && |ip| == g.ninodes
      ensures forall i | 0 <= i < |ip| :: ip[i] == NoInode()
      ensures forall x | 0 <= x < g.size :: InUse(g, disk, x) <==> x < g.datastart
    {
      var d: seq<Block> := seq(g.size, _ => Zeroed());
      var x := 0;
      EmptyMap(g, d);
      while x < g.datastart
        invariant 0 <= x <= g.datastart && MadeTo(g, d, x)
      {
        MarkOne(g, d, x);
        d := d[g.BBlock(x) := PutBit(d[g.BBlock(x)], x % BITS, true)];
        x := x + 1;
      }
      this.g, disk, ip, own, logged := g, d, seq(g.ninodes, _ => NoInode()), map[], {};
      new;
      EmptySystem(g, d, ip);
    }

    /** balloc(): the lowest free block, marked and zeroed; ok is false for a panic. */
    method Balloc() returns (ok: bool, b: nat)
      requires g.Valid() && |disk| == g.size
      modifies this`disk, this`logged
      ensures Traced(old(disk), old(logged), disk, logged)
      ensures !ok ==> disk == old(disk) && logged == old(logged) && Full(g, disk)
      ensures ok ==> b < g.size && !InUse(g, old(disk), b) && forall x | 0 <= x < b :: InUse(g, old(disk), x)
      ensures ok ==> disk == Allocated(g, old(disk), b) && logged == old(logged) + {g.BBlock(b), b}
    {
      hide BlockBit, PutBit;
      var base := 0;
      while base < g.size
        invariant base % BITS == 0
        invariant forall x | 0 <= x < base && x < g.size :: InUse(g, disk, x)
        invariant disk == old(disk) && logged == old(logged)
      {
        var bp := disk[g.BBlock(base)];
        var bi := 0;
        while bi < BITS && base + bi < g.size
          invariant 0 <= bi <= BITS
          invariant forall x | 0 <= x < base + bi && x < g.size :: InUse(g, disk, x)
        {
          b := base + bi;
          assert g.BBlock(b) == g.BBlock(base) && b % BITS == bi;
          if !BlockBit(bp, bi) {
            bp := PutBit(bp, bi, true);
            disk := disk[g.BBlock(b) := bp];
            logged := logged + {g.BBlock(b)};
            disk := disk[b := Zeroed()];       // bzero
            logged := logged + {b};
            return true, b;
          }
          bi := bi + 1;
        }
        base := base + BITS;
      }
      ok, b := false, 0;
    }

    /** bfree(): ok is false for the panic "freeing free block". */
    method Bfree(b: nat) returns (ok: bool)
      requires g.Valid() && |disk| == g.size && b < g.size
      modifies this`disk, this`logged
      ensures ok <==> InUse(g, old(disk), b)
      ensures ok ==> disk == old(disk)[g.BBlock(b) := PutBit(old(disk)[g.BBlock(b)], b % BITS, false)]
      ensures Traced(old(disk), old(logged), disk, logged)
      ensures logged == if ok then old(logged) + {g.BBlock(b)} else old(logged)
      ensures !ok ==> disk == old(disk)
    {
      hide BlockBit, PutBit;
      var bp, bi := disk[g.BBlock(b)], b % BITS;
      if !BlockBit(bp, bi) { return false; }
      bp := PutBit(bp, bi, false);
      disk := disk[g.BBlock(b) := bp];
      logged := logged + {g.BBlock(b)};
      ok := true;
    }

    method AddressOf(i: nat, s: nat) returns (ok: bool, addr: nat, ghost bm: set<nat>)
      requires Sound({}) && i < |ip| && s <= NDIRECT
      modifies this`disk, this`ip, this`own, this`logged
      ensures ok ==> Sound({}) && AddressPost(g, old(disk), old(ip), old(logged), disk, ip, logged, i, s, addr, bm)
      ensures old(ip[i]).addrs[s] != 0 ==> ok
      ensures Traced(old(disk), old(logged), disk, logged) && (!ok ==> Full(g, disk))
    {
      hide InUse, Slot, Owned, AddressPost, Allocated, Inodes, Full;
      OwnedShape(g, disk, ip, own, {});
      bm := {};
      addr := ip[i].addrs[s];
      if addr == 0 {
        ghost var d, lg := disk, logged;
        ok, addr := Balloc();
        if !ok { return; }
        AddressNew(g, d, ip, own, lg, i, s, addr);
        ip := ip[i := ip[i].(addrs := ip[i].addrs[s := addr])];
        own := own[addr := (i, s)];
        bm := {g.BBlock(addr)};
      } else {
        ok := true;
        AddressFound(g, disk, ip, own, logged, i, s);
      }
    }

    method EntryOf(i: nat, k: nat) returns (ok: bool, addr: nat, ghost bm: set<nat>)
      requires Sound({}) && i < |ip| && k < NINDIRECT && ip[i].addrs[NDIRECT] != 0
      modifies this`disk, this`own, this`logged
      ensures ok ==> Sound({}) && EntryPost(g, old(disk), ip, old(logged), disk, logged, i, k, addr, bm)
      ensures Slot(old(disk), ip[i], NDIRECT + 1 + k) != 0 ==> ok
      ensures Traced(old(disk), old(logged), disk, logged) && (!ok ==> Full(g, disk))
    {
      hide InUse, Slot, Owned, EntryPost, Allocated, Inodes, SetWord, WordAt, Full;
      OwnedShape(g, disk, ip, own, {});
      EntrySlot(g, disk, ip, own, i, k);
      bm := {};
      var x := ip[i].addrs[NDIRECT];
      var bp := disk[x];
      addr := WordAt(bp, k);
      if addr == 0 {
        ghost var d, lg := disk, logged;
        ok, addr := Balloc();
        if !ok { return; }
        EntryNew(g, d, ip, own, lg, i, k, addr);
        bp := SetWord(bp, k, addr);
        disk := disk[x := bp];
        logged := logged + {x as nat};
        own := own[addr := (i, NDIRECT + 1 + k)];
        bm := {g.BBlock(addr)};
      } else {
        ok := true;
        EntryFound(g, disk, ip, own, logged, i, k);
      }
    }

    /** bmap() behind the direct blocks. */
    method BmapEntry(i: nat, k: nat) returns (ok: bool, addr: nat, ghost bm: set<nat>)
      requires Sound({}) && i < |ip| && k < NINDIRECT
      modifies this`disk, this`ip, this`own, this`logged
      ensures ok ==>
        Sound({}) && BmapPost(g, old(disk), old(ip), old(logged), disk, ip, logged, i, NDIRECT + k, addr, bm)
      ensures Slot(old(disk), old(ip[i]), NDIRECT + 1 + k) != 0 ==> ok
      ensures Traced(old(disk), old(logged), disk, logged) && (!ok ==> Full(g, disk))
    {
      hide Slot, Owned, AddressPost, EntryPost, BmapPost, Inodes, Traced, Full;
      SlotAddress(g, disk, ip, own, i, NDIRECT + k);
      ghost var d, ds, lg0 := disk, ip, logged;
      var x;
      ghost var bm';
      ok, x, bm := AddressOf(i, NDIRECT);
      if !ok { addr := 0; return; }
      AddressSet(g, d, ds, lg0, disk, ip, logged, i, NDIRECT, x, bm);
      AddressKeeps(g, d, ds, lg0, disk, ip, logged, i, NDIRECT, x, bm, NDIRECT + 1 + k);
      ghost var e, lg := disk, logged;
      ok, addr, bm' := EntryOf(i, k);
      TracedMore(d, lg0, e, lg, disk, logged);
      if ok { BmapIndirect(g, d, ds, lg0, x, e, ip, lg, bm, disk, logged, i, NDIRECT + k, addr, bm'); }
      bm := bm + bm';
    }

    /** bmap(): the address of the bn-th block of inode i, allocated if it is missing; ok is false for a panic. */
    method Bmap(i: nat, bn: nat) returns (ok: bool, addr: nat, ghost bm: set<nat>)
      requires Sound({}) && i < |ip|
      modifies this`disk, this`ip, this`own, this`logged
      ensures ok ==> Sound({}) && BmapPost(g, old(disk), old(ip), old(logged), disk, ip, logged, i, bn, addr, bm)
      ensures bn >= MAXFILE ==> !ok
      ensures bn < MAXFILE && Slot(old(disk), old(ip[i]), DataSlot(bn)) != 0 ==> ok
      ensures Traced(old(disk), old(logged), disk, logged) && (!ok && bn < MAXFILE ==> Full(g, disk))
    {
      hide Slot, Owned, AddressPost, BmapPost, Inodes, Full;
      SlotAddress(g, disk, ip, own, i, bn);
      bm := {};
      if bn < NDIRECT {
        ghost var d, ds, lg := disk, ip, logged;
        ok, addr, bm := AddressOf(i, bn);
        if ok { BmapDirect(g, d, ds, lg, disk, ip, logged, i, bn, addr, bm); }
      } else if bn - NDIRECT < NINDIRECT {
        ok, addr, bm := BmapEntry(i, bn - NDIRECT);
      } else {
        ok, addr := false, 0;
      }
    }

    method Iupdate(i: nat)
      requires g.Valid() && |disk| == g.size && i < |ip| == g.ninodes && ip[i].Valid()
      modifies this`disk, this`logged
      ensures disk == Updated(g, old(disk), i, ip[i]) && logged == old(logged) + {g.IBlock(i)}
      ensures Traced(old(disk), old(logged), disk, logged)
    {
      var bp := Encode(disk[g.IBlock(i)], i % IPB, ip[i]);
      disk := disk[g.IBlock(i) := bp];
      logged := logged + {g.IBlock(i)};
    }

    /** One turn of the loop of writei: bring in the block, copy, log. */
    method WriteStep(i: nat, src: seq<Byte>, off: nat, tot: nat, ghost d0: seq<Block>, ghost ds0: seq<Inode>,
                     ghost lg0: set<nat>, ghost t0: Tally)
      returns (ok: bool, m: nat, ghost t: Tally)
      requires Writing(g, d0, ds0, lg0, disk, ip, own, logged, i, off, src, tot, t0) && tot < |src| && i < |ds0|
      modifies this`disk, this`ip, this`own, this`logged
      ensures Traced(old(disk), old(logged), disk, logged) && (!ok ==> Full(g, disk))
      ensures !ok ==> ds0[i].Valid() && !AllThere(d0, ds0[i], off, |src|)
      ensures ok ==> 0 < m && tot + m <= |src|
      ensures ok ==> Writing(g, d0, ds0, lg0, disk, ip, own, logged, i, off, src, tot + m, t)
    {
      hide Owned, Written, BmapPost, Patch, Writing, Traced, Full, Slot;
      WritingParts(g, d0, ds0, lg0, disk, ip, own, logged, i, off, src, tot, t0);
      ghost var d, ds, lg, own0 := disk, ip, logged, own;
      ghost var bm;
      var addr;
      m, t := 0, t0;
      WritingInside(g, d0, ds0, lg0, disk, ip, own, logged, i, off, src, tot, t0);
      ok, addr, bm := Bmap(i, (off + tot) / BSIZE);
      if !ok { return; }
      m := if |src| - tot < BSIZE - (off + tot) % BSIZE then |src| - tot else BSIZE - (off + tot) % BSIZE;
      t := StepDone(g, d0, ds0, lg0, d, ds, own0, lg, disk, ip, own, logged, i, off, src, tot, m, t0, addr, bm);
      ghost var e, lg' := disk, logged;
      Store(addr, (off + tot) % BSIZE, src[tot..tot + m]);
      TracedMore(d, lg, e, lg', disk, logged);
    }

    /** memmove into a block, and log_write. */
    method Store(b: nat, p: nat, src: seq<Byte>)
      requires b < |disk| && p + |src| <= BSIZE
      modifies this`disk, this`logged
      ensures disk == old(disk)[b := Patch(old(disk)[b], p, src)] && logged == old(logged) + {b}
      ensures Traced(old(disk), old(logged), disk, logged)
    {
      hide Patch;
      disk := disk[b := Patch(disk[b], p, src)];
      logged := logged + {b};
    }

    /** The loop of writei. The ghost result bounds what it logs. */
    method WriteBlocks(i: nat, src: seq<Byte>, off: nat) returns (ok: bool, ghost t: Tally)
      requires Valid() && i < |ip| && off <= ip[i].size && off + |src| <= MAXFILE * BSIZE
      modifies this`disk, this`ip, this`own, this`logged
      ensures Traced(old(disk), old(logged), disk, logged) && (!ok ==> Full(g, disk))
      ensures old(ip[i]).Valid() && (!ok ==> !AllThere(old(disk), old(ip[i]), off, |src|))
      ensures ok ==> Writing(g, old(disk), old(ip), old(logged), disk, ip, own, logged, i, off, src, |src|, t)
    {
      hide Owned, Synced, Writing, Traced, Full, Inodes;
      ghost var d0, ds0, lg0 := disk, ip, logged;
      SyncedMapped(g, disk, ip, i);
      t := WritingStart(g, disk, ip, own, logged, i, off, src);
      var tot := 0;
      TracedNone(d0, lg0);
      while tot < |src|
        invariant 0 <= tot <= |src| && Traced(d0, lg0, disk, logged) && i < |ds0|
        invariant Writing(g, d0, ds0, lg0, disk, ip, own, logged, i, off, src, tot, t)
      {
        var m;
        ghost var d, lg := disk, logged;
        ok, m, t := WriteStep(i, src, off, tot, d0, ds0, lg0, t);
        TracedMore(d0, lg0, d, lg, disk, logged);
        if !ok { return; }
        tot := tot + m;
      }
      ok := true;
    }

    /** writei(): overwrite-and-extend. r is -1 or the number of bytes; ok is false for a panic. */
    method Writei(i: nat, src: seq<Byte>, off: nat) returns (ok: bool, r: int)
      requires Valid() && i < |ip| && ip[i].kind != T_DEV && off < UINT && |src| < UINT
      modifies this`disk, this`ip, this`own, this`logged
      ensures Traced(old(disk), old(logged), disk, logged) && (!ok ==> Full(g, disk))
      ensures ok ==> Valid()
      ensures ok ==> r == if off > old(ip[i]).size || off + |src| > MAXFILE * BSIZE then -1 else |src|
      ensures ok && r < 0 ==> disk == old(disk) && ip == old(ip) && logged == old(logged)
      ensures ok && r >= 0 ==>
        OnlyFile(old(disk), old(ip), disk, ip, i, Overwrite(Content(old(disk), old(ip[i])), off, src))
      ensures ok ==> Costs(logged, old(logged), g.IBlock(i), WriteCost(off, |src|))
      ensures old(ip[i]).Valid() && (AllThere(old(disk), old(ip[i]), off, |src|) ==> ok)
      ensures off + |src| <= old(ip[i]).size ==> ok
      ensures ok && |src| <= CHUNK ==> |logged - old(logged)| <= MAXOPBLOCKS
    {
      hide Owned, Written, Slot, Mapped, Decode, Content, Overwrite, OnlyFile, Costs, Synced, WriteCost, Traced, Full,
        Inodes, AllThere;
      OwnedShape(g, disk, ip, own, {});
      TracedNone(disk, logged);
      CostNone(logged, g.IBlock(i), off, |src|);
      SyncedMapped(g, disk, ip, i);
      if off + |src| <= ip[i].size { InsideThere(disk, ip[i], off, |src|); }
      if off > ip[i].size || (off + |src|) % UINT < off {
        return true, -1;
      }
      if (off + |src|) % UINT > MAXFILE * BSIZE {
        return true, -1;
      }
      ok := WriteChecked(i, src, off);
      r := |src|;
    }

    /** writei() past its checks. */
    method WriteChecked(i: nat, src: seq<Byte>, off: nat) returns (ok: bool)
      requires Valid() && i < |ip| && ip[i].Valid() && off <= ip[i].size && off + |src| <= MAXFILE * BSIZE
      modifies this`disk, this`ip, this`own, this`logged
      ensures Traced(old(disk), old(logged), disk, logged) && (!ok ==> Full(g, disk))
      ensures old(ip[i]).Valid() && (!ok ==> !AllThere(old(disk), old(ip[i]), off, |src|))
      ensures ok ==> Valid()
      ensures ok ==> OnlyFile(old(disk), old(ip), disk, ip, i, Overwrite(Content(old(disk), old(ip[i])), off, src))
      ensures ok ==> Costs(logged, old(logged), g.IBlock(i), WriteCost(off, |src|))
      ensures ok && |src| <= CHUNK ==> |logged - old(logged)| <= MAXOPBLOCKS
    {
      hide Owned, Written, Slot, Mapped, Decode, Content, Overwrite, OnlyFile, Writing, WriteCost, Costs, Synced,
        Updated, Traced, Full, Inodes;
      ghost var d0, ds0, lg0 := disk, ip, logged;
      ghost var t;
      ok, t := WriteBlocks(i, src, off);
      if !ok { return; }
      WritingParts(g, d0, ds0, lg0, disk, ip, own, logged, i, off, src, |src|, t);
      OwnedShape(g, disk, ip, own, {});
      CostBound(g, d0, ds0, lg0, disk, ip, own, logged, i, off, src, t);
      CostInode(logged, lg0, g.IBlock(i), WriteCost(off, |src|));
      WrittenStat(g, d0, ds0, disk, ip, i, off, src, |src|);
      if |src| > 0 && off + |src| > ip[i].size {
        WritePast(g, d0, ds0, disk, ip, own, i, off, src);
        ip := ip[i := ip[i].(size := off + |src|)];
        ghost var d, lg := disk, logged;
        Iupdate(i);
        TracedMore(d0, lg0, d, lg, disk, logged);
      } else {
        WriteInside(g, d0, ds0, disk, ip, i, off, src);
      }
    }

    /** readi(): the slice of the file from off, as far as it goes. Reading changes nothing. */
    method Readi(i: nat, off: nat, n: nat) returns (r: int, dst: seq<Byte>)
      requires Valid() && i < |ip| && ip[i].kind != T_DEV && off < UINT && n < UINT
      modifies this`disk, this`ip, this`own, this`logged
      ensures Valid() && disk == old(disk) && ip == old(ip) && logged == old(logged)
      ensures r == if off > ip[i].size || off + n >= UINT then -1 else |dst|
      ensures r >= 0 ==> dst == Content(disk, ip[i])[off..if off + n > ip[i].size then ip[i].size else off + n]
    {
      hide Owned, Slot, Mapped, Decode, Content, ByteAt, Synced, BmapPost, Inodes;
      dst := [];
      OwnedShape(g, disk, ip, own, {});
      if off > ip[i].size || (off + n) % UINT < off {
        return -1, [];
      }
      var len := if off + n > ip[i].size then ip[i].size - off else n;
      ContentSize(disk, ip[i]);
      var tot := 0;
      while tot < len
        invariant 0 <= tot <= len && disk == old(disk) && ip == old(ip) && logged == old(logged) && Valid()
        invariant dst == Content(disk, ip[i])[off..off + tot]
      {
        var p := (off + tot) % BSIZE;
        var m := if len - tot < BSIZE - p then len - tot else BSIZE - p;
        var s := ReadStep(i, off + tot, m);
        dst := dst + s;
        tot := tot + m;
      }
      r := len;
    }

    /** One turn of the loop of readi: what is wanted of one block. */
    method ReadStep(i: nat, o: nat, m: nat) returns (s: seq<Byte>)
      requires Valid() && i < |ip| && ip[i].Valid() && 0 < m && o + m <= ip[i].size && o % BSIZE + m <= BSIZE
      modifies this`disk, this`ip, this`own, this`logged
      ensures Valid() && disk == old(disk) && ip == old(ip) && logged == old(logged)
      ensures s == Content(disk, ip[i])[o..o + m]
    {
      hide Owned, Slot, Mapped, Decode, Content, ByteAt, Synced, BmapPost, Inodes, Traced, Full;
      ghost var d, ds, lg := disk, ip, logged;
      var ok, addr;
      ghost var bm;
      ReadMapped(g, disk, ip, i, o);
      ok, addr, bm := Bmap(i, o / BSIZE);
      BmapFound(g, d, ds, lg, disk, ip, logged, i, o / BSIZE, addr, bm);
      ReadSlice(disk, ip[i], o, m, addr);
      s := disk[addr][o % BSIZE..o % BSIZE + m];
    }

    /** The first loop of itrunc. */
    method FreeDirectBlocks(i: nat) returns (ok: bool)
      requires Valid() && i < |ip|
      modifies this`disk, this`ip, this`own, this`logged
      ensures ok && Sound({}) && Others(g, old(disk), old(ip), disk, ip, i) && |ip| == old(|ip|)
      ensures |ip[i].addrs| == NDIRECT + 1 && forall s | 0 <= s < NDIRECT :: ip[i].addrs[s] == 0
      ensures Traced(old(disk), old(logged), disk, logged) && logged <= old(logged) + Maps(g)
    {
      hide Owned, Slot, ByteAt, Synced, InUse, Others, Inodes, Traced, Maps;
      OwnedShape(g, disk, ip, own, {});
      OthersStart(g, disk, ip, own, i);
      ghost var d0, ds0, lg0 := disk, ip, logged;
      TracedNone(d0, lg0);
      var s := 0;
      while s < NDIRECT
        invariant 0 <= s <= NDIRECT && Sound({}) && Others(g, d0, ds0, disk, ip, i) && |ip| == |ds0|
        invariant |ip[i].addrs| == NDIRECT + 1 && forall t | 0 <= t < s :: ip[i].addrs[t] == 0
        invariant Traced(d0, lg0, disk, logged) && logged <= lg0 + Maps(g)
      {
        OwnedShape(g, disk, ip, own, {});
        if ip[i].addrs[s] != 0 {
          FreeDirect(g, d0, ds0, disk, ip, own, i, s);
          own := own - {ip[i].addrs[s] as nat};
          ghost var d, lg := disk, logged;
          MapOf(g, ip[i].addrs[s]);
          ok := Bfree(ip[i].addrs[s]);
          if !ok { return; }
          TracedMore(d0, lg0, d, lg, disk, logged);
          ip := ip[i := ip[i].(addrs := ip[i].addrs[s := 0])];
        }
        s := s + 1;
      }
      ok := true;
    }

    /** The second half of itrunc: the entries of the indirect block, then the block itself. */
    method FreeIndirectBlocks(i: nat, ghost d0: seq<Block>, ghost ds0: seq<Inode>) returns (ok: bool)
      requires Sound({}) && i < |ip| == |ds0| && Others(g, d0, ds0, disk, ip, i) && ip[i].addrs[NDIRECT] != 0
      modifies this`disk, this`ip, this`own, this`logged
      ensures ok && Sound({}) && Others(g, d0, ds0, disk, ip, i)
      ensures ip == old(ip)[i := old(ip[i]).(addrs := old(ip[i]).addrs[NDIRECT := 0])]
      ensures Traced(old(disk), old(logged), disk, logged) && logged <= old(logged) + Maps(g)
    {
      hide Owned, Slot, ByteAt, InUse, Others, Inodes, WordAt, Entries, Traced, Maps;
      ghost var d1, lg1 := disk, logged;
      TracedNone(d1, lg1);
      OwnedShape(g, disk, ip, own, {});
      DropIndirect(g, d0, ds0, disk, ip, own, i);
      var x := ip[i].addrs[NDIRECT];
      var a := disk[x];
      ghost var js := ip[i := ip[i].(addrs := ip[i].addrs[NDIRECT := 0])];
      ghost var own' := own - ({x as nat} + Entries(a, 0));
      var j := 0;
      while j < NINDIRECT
        invariant 0 <= j <= NINDIRECT && ip == old(ip) && |disk| == g.size && x < g.size && x !in Entries(a, 0)
        invariant Owned(g, disk, js, own', {x as nat} + Entries(a, j)) && Others(g, d0, ds0, disk, js, i)
        invariant Traced(d1, lg1, disk, logged) && logged <= lg1 + Maps(g)
      {
        NextEntry(a, j);
        if WordAt(a, j) != 0 {
          ghost var extra := {x as nat} + Entries(a, j);
          OthersClear(g, d0, ds0, disk, js, own', extra, i, WordAt(a, j));
          assert extra - {WordAt(a, j) as nat} == {x as nat} + Entries(a, j + 1);
          ghost var d, lg := disk, logged;
          MapOf(g, WordAt(a, j));
          ok := Bfree(WordAt(a, j));
          if !ok { return; }
          TracedMore(d1, lg1, d, lg, disk, logged);
        }
        j := j + 1;
      }
      NoEntries(a);
      assert {x as nat} + Entries(a, j) == {x as nat};
      OthersClear(g, d0, ds0, disk, js, own', {x as nat}, i, x);
      assert {x as nat} - {x as nat} == {};
      ghost var d, lg := disk, logged;
      MapOf(g, x);
      ok := Bfree(x);
      if !ok { return; }
      TracedMore(d1, lg1, d, lg, disk, logged);
      ip := ip[i := ip[i].(addrs := ip[i].addrs[NDIRECT := 0])];
      own := own';
    }

    /** itrunc(): the file is emptied and its blocks are free; no other file notices, and bfree never panics. */
    method Itrunc(i: nat) returns (ok: bool)
      requires Valid() && i < |ip|
      modifies this`disk, this`ip, this`own, this`logged
      ensures ok && Valid() && |ip| == old(|ip|)
      ensures ip[i] == old(ip[i]).(size := 0, addrs := seq(NDIRECT + 1, _ => 0))
      ensures forall j | 0 <= j < |ip| && j != i ::
        ip[j] == old(ip)[j] && Content(disk, ip[j]) == Content(old(disk), old(ip)[j])
      ensures forall s | 0 <= s < NSLOT && Slot(old(disk), old(ip[i]), s) != 0 ::
                Slot(old(disk), old(ip[i]), s) < g.size && !InUse(g, disk, Slot(old(disk), old(ip[i]), s))
      ensures Traced(old(disk), old(logged), disk, logged) && logged <= old(logged) + Maps(g) + {g.IBlock(i)}
      ensures |logged - old(logged)| <= g.size / BITS + 2
    {
      hide Owned, Slot, ByteAt, Synced, InUse, Others, Inodes, Updated, Content, Traced, Maps;
      OwnedShape(g, disk, ip, own, {});
      ghost var d0, ds0, own0, lg0 := disk, ip, own, logged;
      ok := FreeDirectBlocks(i);
      OwnedShape(g, disk, ip, own, {});
      ghost var d1, lg1 := disk, logged;
      if ip[i].addrs[NDIRECT] != 0 {
        ok := FreeIndirectBlocks(i, d0, ds0);
        TracedMore(d0, lg0, d1, lg1, disk, logged);
      }
      OwnedShape(g, disk, ip, own, {});
      OthersStat(g, d0, ds0, disk, ip, i);
      assert ip[i].addrs == seq(NDIRECT + 1, _ => 0);
      ghost var d, ds, lg := disk, ip, logged;
      ip := ip[i := ip[i].(size := 0)];
      Truncated(g, d0, ds0, own0, d, ds, own, i, ip[i]);
      Iupdate(i);
      TracedMore(d0, lg0, d, lg, disk, logged);
      MapsSize(g, lg0, logged, g.IBlock(i));
    }

    /** iput() on inode i with ref references: the last reference to an inode without links frees it. */
    method Iput(i: nat, ref: nat) returns (ok: bool, r: nat)
      requires Valid() && i < |ip| && ref >= 1
      modifies this`disk, this`ip, this`own, this`logged
      ensures ok && Valid() && r == ref - 1 && |ip| == old(|ip|)
      ensures old(ip[i]).nlink != 0 || ref > 1 ==> disk == old(disk) && ip == old(ip)
      ensures old(ip[i]).nlink == 0 && ref == 1 ==>
                && ip[i] == old(ip[i]).(kind := 0, size := 0, addrs := seq(NDIRECT + 1, _ => 0))
                && (forall j | 0 <= j < |ip| && j != i ::
                  ip[j] == old(ip)[j] && Content(disk, ip[j]) == Content(old(disk), old(ip)[j]))
                && (forall s | 0 <= s < NSLOT && Slot(old(disk), old(ip[i]), s) != 0 ::
                      Slot(old(disk), old(ip[i]), s) < g.size && !InUse(g, disk, Slot(old(disk), old(ip[i]), s)))
      ensures Traced(old(disk), old(logged), disk, logged) && logged <= old(logged) + Maps(g) + {g.IBlock(i)}
      ensures |logged - old(logged)| <= g.size / BITS + 2
    {
      hide Owned, Slot, ByteAt, Synced, InUse, Inodes, Updated, Content, Traced, Maps;
      ok, r := true, ref - 1;
      ghost var d0, lg0 := disk, logged;
      TracedNone(d0, lg0);
      if ip[i].nlink == 0 && ref == 1 {
        ok := Itrunc(i);
        OwnedShape(g, disk, ip, own, {});
        Retyped(g, disk, ip, own, i, ip[i].(kind := 0));
        ip := ip[i := ip[i].(kind := 0)];
        ghost var d, lg := disk, logged;
        Iupdate(i);
        TracedMore(d0, lg0, d, lg, disk, logged);
      }
      MapsSize(g, lg0, logged, g.IBlock(i));
    }

    /** iupdate() after a change of the fields other than size and addrs. */
    method Restamp(i: nat, ino: Inode)
      requires Valid() && i < |ip| && ino.Valid() && ip[i].Valid() && ino.size == ip[i].size && ino.addrs == ip[i].addrs
      modifies this`disk, this`ip, this`logged
      ensures Valid() && ip == old(ip)[i := ino] && SameContents(old(disk), old(ip), disk, ip)
      ensures Traced(old(disk), old(logged), disk, logged) && logged == old(logged) + {g.IBlock(i)}
    {
      hide Owned, Slot, ByteAt, Synced, InUse, Inodes, Updated, Content, Traced;
      OwnedShape(g, disk, ip, own, {});
      Retyped(g, disk, ip, own, i, ino);
      ip := ip[i := ino];
      Iupdate(i);
    }

    /** ialloc(): the first free inode, blank but for its type; 0 is the panic. */
    method Ialloc(kind: nat) returns (inum: nat)
      requires Valid() && FreeBlank(ip) && 0 < kind < 0x1_0000
      modifies this`disk, this`ip, this`logged
      ensures Valid() && Traced(old(disk), old(logged), disk, logged) && SameContents(old(disk), old(ip), disk, ip)
      ensures inum == 0 ==> disk == old(disk) && ip == old(ip) && logged == old(logged)
      ensures inum == 0 ==> forall i | 1 <= i < |ip| :: ip[i].kind != 0
      ensures inum != 0 ==>
        inum < |ip| == |old(ip)| && old(ip)[inum].kind == 0 && forall i | 1 <= i < inum :: old(ip)[i].kind != 0
      ensures inum != 0 ==> ip == old(ip)[inum := NoInode().(kind := kind)] && logged == old(logged) + {g.IBlock(inum)}
    {
      hide Owned, Slot, ByteAt, Synced, Inodes, Content, Traced, NoInode;
      TracedNone(disk, logged);
      OwnedShape(g, disk, ip, own, {});
      inum := 1;
      while inum < |ip|
        invariant 1 <= inum && forall i | 1 <= i < inum && i < |ip| :: ip[i].kind != 0
      {
        if ip[inum].kind == 0 {
          BlankInode(ip, inum, kind);
          Restamp(inum, NoInode().(kind := kind));
          return;
        }
        inum := inum + 1;
      }
      return 0;
    }

    /** filewrite() to an inode at offset off0, in transactions of at most CHUNK bytes; off is the new f->off.
        txns are the blocks each transaction logged, and states the disk before and after each. */
    method Filewrite(i: nat, src: seq<Byte>, off0: nat)
      returns (ok: bool, r: int, off: nat, ghost txns: seq<set<nat>>, ghost states: seq<seq<Block>>)
      requires Valid() && i < |ip| && ip[i].kind != T_DEV && off0 < UINT && |src| < UINT
      modifies this`disk, this`ip, this`own, this`logged
      ensures Transactions(g, old(disk), txns, states)
      ensures if ok then Valid() && states[|txns|] == disk else Full(g, disk)
      ensures ok ==> off0 <= off <= off0 + |src| && r == if off == off0 + |src| then |src| else -1
      ensures ok && off0 > old(ip[i]).size ==> off == off0 && disk == old(disk) && ip == old(ip)
      ensures ok && off0 <= old(ip[i]).size ==>
                OnlyFile(old(disk), old(ip), disk, ip, i,
                  Overwrite(Content(old(disk), old(ip[i])), off0, src[..off - off0]))
      ensures ok && r < 0 && off0 <= old(ip[i]).size ==>
                off + (if off0 + |src| - off > CHUNK then CHUNK else off0 + |src| - off) > MAXFILE * BSIZE
    {
      hide Owned, Synced, Content, Overwrite, OnlyFile, Inodes, Transactions, Traced, Full;
      OwnedShape(g, disk, ip, own, {});
      ghost var d0, ds0 := disk, ip;
      ghost var file := Content(d0, ds0[i]);
      txns, states, off := [], [disk], off0;
      TransactionsNone(g, disk, ip, own);
      ok, r := true, 0;
      if off0 <= ip[i].size {
        OnlyFileRefl(g, disk, ip, own, i, off0);
        assert src[..0] == [];
      }
      var k := 0;
      while k < |src|
        invariant 0 <= k <= |src| && off == off0 + k && Valid() && |ip| == |ds0| && ip[i].kind != T_DEV
        invariant Transactions(g, d0, txns, states) && |states| == |txns| + 1 && states[|txns|] == disk
        invariant off0 > ds0[i].size ==> k == 0 && disk == d0 && ip == ds0
        invariant off0 <= ds0[i].size ==>
          |file| == ds0[i].size && OnlyFile(d0, ds0, disk, ip, i, Overwrite(file, off0, src[..k]))
      {
        var n1 := if |src| - k > CHUNK then CHUNK else |src| - k;
        logged := {};                      // begin_op
        ghost var d, ds := disk, ip;
        OwnedShape(g, disk, ip, own, {});
        if off0 <= ds0[i].size { OnlyFileSize(d0, ds0, d, ds, i, file, off0, src[..k]); }
        ok, r := Writei(i, src[k..k + n1], off);
        if !ok { return; }
        TransactionMore(g, d0, txns, states, disk, ip, own, logged);
        txns, states := txns + [logged], states + [disk];           // end_op
        if r < 0 { break; }
        if off0 <= ds0[i].size {
          OnlyFileKind(d, ds, disk, ip, i, Overwrite(Content(d, ds[i]), off, src[k..k + n1]));
          OnlyFileTwice(d0, ds0, d, ds, disk, ip, i, file, off0, src[..k], src[k..k + n1]);
          assert src[..k] + src[k..k + n1] == src[..k + n1];
        }
        k := k + r;
        off := off + r;
      }
      r := if k == |src| then |src| else -1;
    }
  }
}
