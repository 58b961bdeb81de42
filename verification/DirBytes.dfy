/** Directories as files: the 16-byte entries that dirlookup reads and dirlink writes, against the entries of
    DirTree. */
module DirBytes {
  import opened Blocks
  import opened FsLayout
  import opened FsBytes
  import Fs
  import T = DirTree
  import Dir

  const DESIZE: nat := 16          // sizeof(struct dirent)

  /** The characters a C string can hold. */
  predicate Plain(name: string) {
    forall c | c in name :: 0 < c as int < 256
  }

  /** The name in so many bytes, up to the first NUL. */
  function NameOf(b: seq<Byte>): (n: string)
    ensures |n| <= |b|
  {
    if b == [] || b[0] == 0 then "" else [b[0] as char] + NameOf(b[1..])
  }

  /** strncpy of a name to n bytes. */
  function NameBytes(name: string, n: nat): (b: seq<Byte>)
    requires Plain(name) && |name| <= n
    ensures |b| == n
    decreases n
  {
    if n == 0 then [] else if name == "" then [0] + NameBytes(name, n - 1)
    else
      assert name[0] in name && forall c | c in name[1..] :: c in name;
      [name[0] as int as Byte] + NameBytes(name[1..], n - 1)
  }

  lemma {:induction false} NameRoundTrip(name: string, n: nat)
    requires Plain(name) && |name| <= n
    ensures NameOf(NameBytes(name, n)) == name
    decreases n
  {
    if name != "" {
      assert name[0] in name && forall c | c in name[1..] :: c in name;
      NameRoundTrip(name[1..], n - 1);
      assert NameBytes(name, n)[1..] == NameBytes(name[1..], n - 1);
      assert [name[0]] + name[1..] == name;
    }
  }

  /** struct dirent in the bytes of a file. */
  function Decode(b: seq<Byte>): T.Ent
    requires |b| == DESIZE
  {
    var lo: int, hi: int := b[0], b[1];
    T.Ent(lo + 256 * hi, NameOf(b[2..]))
  }

  function Encode(inum: nat, name: T.Name): (b: seq<Byte>)
    requires inum < 0x1_0000 && Plain(name)
    ensures |b| == DESIZE
  {
    [inum % 256, inum / 256] + NameBytes(name, T.DIRSIZ)
  }

  lemma EntryRoundTrip(inum: nat, name: T.Name)
    requires inum < 0x1_0000 && Plain(name)
    ensures Decode(Encode(inum, name)) == T.Ent(inum, name)
  {
    NameRoundTrip(name, T.DIRSIZ);
    assert Encode(inum, name)[2..] == NameBytes(name, T.DIRSIZ);
  }

  /** A directory's bytes as entries. */
  function Entries(bytes: seq<Byte>): (es: seq<T.Ent>)
    ensures |es| == |bytes| / DESIZE
  {
    seq(|bytes| / DESIZE, k requires 0 <= k < |bytes| / DESIZE => Decode(bytes[DESIZE * k..DESIZE * k + DESIZE]))
  }

  /** Writing one entry's bytes is putting one entry. */
  lemma EntryWritten(bytes: seq<Byte>, k: nat, inum: nat, name: T.Name)
    requires k < |bytes| / DESIZE || (k == |bytes| / DESIZE && |bytes| % DESIZE == 0)
    requires inum < 0x1_0000 && Plain(name)
    ensures Entries(Overwrite(bytes, DESIZE * k, Encode(inum, name))) == T.Put(Entries(bytes), k, T.Ent(inum, name))
  {
    hide Decode, Encode;
    var src := Encode(inum, name);
    var r := Overwrite(bytes, DESIZE * k, src);
    EntryRoundTrip(inum, name);
    forall j | 0 <= j < |r| / DESIZE ensures Entries(r)[j] == T.Put(Entries(bytes), k, T.Ent(inum, name))[j] {
      EntryAfter(bytes, k, src, j);
    }
  }

  lemma EntryAfter(bytes: seq<Byte>, k: nat, src: seq<Byte>, j: nat)
    requires |src| == DESIZE && (k < |bytes| / DESIZE || (k == |bytes| / DESIZE && |bytes| % DESIZE == 0))
    requires j < |Overwrite(bytes, DESIZE * k, src)| / DESIZE
    ensures j != k ==> j < |bytes| / DESIZE
    ensures Overwrite(bytes, DESIZE * k, src)[DESIZE * j..DESIZE * j + DESIZE]
         == if j == k then src else bytes[DESIZE * j..DESIZE * j + DESIZE]
  {
    var r := Overwrite(bytes, DESIZE * k, src);
    var s := r[DESIZE * j..DESIZE * j + DESIZE];
    forall i | 0 <= i < DESIZE ensures s[i] == if j == k then src[i] else bytes[DESIZE * j + i] {
      OverwriteAt(bytes, DESIZE * k, src, DESIZE * j + i);
    }
    hide Overwrite;
  }

  /** sys_unlink clears the entry's bytes, which empties the entry. */
  lemma EntryCleared(bytes: seq<Byte>, k: nat)
    requires k < |bytes| / DESIZE
    ensures Entries(Overwrite(bytes, DESIZE * k, seq(DESIZE, _ => 0))) == Entries(bytes)[k := T.BLANK]
  {
    NoName(T.DIRSIZ);
    assert Encode(0, "") == seq(DESIZE, _ => 0);
    EntryWritten(bytes, k, 0, "");
  }

  lemma {:induction false} NoName(n: nat)
    ensures NameBytes("", n) == seq(n, _ => 0)
  {
    if n > 0 { NoName(n - 1); }
  }

  /** The file system as DirTree sees it: types, link counts, and what its directories hold. */
  ghost function Abs(d: seq<Block>, ds: seq<Inode>): (s: seq<T.Inode>)
    requires forall i | 0 <= i < |ds| :: ds[i].Valid()
    ensures |s| == |ds|
  {
    seq(|ds|, i requires 0 <= i < |ds| => Node(d, ds[i]))
  }

  ghost function Node(d: seq<Block>, ino: Inode): T.Inode
    requires ino.Valid()
  {
    T.Inode(ino.kind, ino.nlink, if ino.kind == T.T_DIR then Entries(Content(d, ino)) else [])
  }

  /** A write to one directory changes one node. */
  lemma AbsWritten(d0: seq<Block>, ds0: seq<Inode>, d: seq<Block>, ds: seq<Inode>, i: nat, bytes: seq<Byte>)
    requires OnlyFile(d0, ds0, d, ds, i, bytes) && ds0[i].kind == T.T_DIR
    ensures Abs(d, ds) == Abs(d0, ds0)[i := Abs(d0, ds0)[i].(ents := Entries(bytes))]
  {
    hide Content, Entries;
  }

  /** dirlookup, off being counted in bytes. It panics when it comes upon a last entry that is not whole. */
  method Dirlookup(f: Fs.Fs, i: nat, name: T.Name) returns (ok: bool, inum: nat, off: nat)
    requires f.Valid() && i < |f.ip| && f.ip[i].kind == T.T_DIR && f.ip[i].Valid()
    modifies f`disk, f`ip, f`own, f`logged
    ensures f.Valid() && f.disk == old(f.disk) && f.ip == old(f.ip) && f.logged == old(f.logged)
    ensures ok <==> T.Taken(Entries(Content(f.disk, f.ip[i])), name) || f.ip[i].size % DESIZE == 0
    ensures ok ==> inum == Dir.Find(Entries(Content(f.disk, f.ip[i])), name)
    ensures inum != 0 ==> off % DESIZE == 0 && off + DESIZE <= f.ip[i].size
    ensures inum != 0 ==> Dir.FirstNamed(Entries(Content(f.disk, f.ip[i])), name, off / DESIZE)
    ensures inum != 0 ==> Entries(Content(f.disk, f.ip[i]))[off / DESIZE] == T.Ent(inum, name)
  {
    hide Content, FsLayout.Owned, Synced, NameOf;
    ghost var es := Entries(Content(f.disk, f.ip[i]));
    ghost var k := 0;
    off := 0;
    while off < f.ip[i].size
      invariant off == DESIZE * k && k <= |es|
      invariant f.Valid() && f.disk == old(f.disk) && f.ip == old(f.ip) && f.logged == old(f.logged)
      invariant forall j | 0 <= j < k :: es[j].inum == 0 || es[j].name != name
      invariant Dir.Find(es, name) == Dir.Find(es[k..], name)
    {
      var r, de := f.Readi(i, off, DESIZE);
      if r != DESIZE {
        return false, 0, off;
      }
      EntryRead(Content(f.disk, f.ip[i]), k, de);
      var e := Decode(de);
      if e.inum != 0 && e.name == name {
        return true, e.inum, off;
      }
      assert es[k..][1..] == es[k + 1..];
      k := k + 1;
      off := off + DESIZE;
    }
    return true, 0, off;
  }

  lemma EntryRead(bytes: seq<Byte>, k: nat, de: seq<Byte>)
    requires DESIZE * k + DESIZE <= |bytes| && de == bytes[DESIZE * k..DESIZE * k + DESIZE]
    ensures k < |Entries(bytes)| && Entries(bytes)[k] == Decode(de)
  {
  }

  /** The loop of dirlink: the first entry not in use, or the end. */
  method FindFree(f: Fs.Fs, i: nat) returns (off: nat)
    requires f.Valid() && i < |f.ip| && f.ip[i].kind == T.T_DIR && f.ip[i].Valid() && f.ip[i].size % DESIZE == 0
    modifies f`disk, f`ip, f`own, f`logged
    ensures f.Valid() && f.disk == old(f.disk) && f.ip == old(f.ip) && f.logged == old(f.logged)
    ensures off % DESIZE == 0 && off <= f.ip[i].size && Dir.FirstFree(Entries(Content(f.disk, f.ip[i])), off / DESIZE)
  {
    hide Content, FsLayout.Owned, Synced, NameOf;
    ghost var es := Entries(Content(f.disk, f.ip[i]));
    ghost var k := 0;
    off := 0;
    while off < f.ip[i].size
      invariant off == DESIZE * k && k <= |es|
      invariant f.Valid() && f.disk == old(f.disk) && f.ip == old(f.ip) && f.logged == old(f.logged)
      invariant forall j | 0 <= j < k :: es[j].inum != 0
    {
      var r, de := f.Readi(i, off, DESIZE);
      EntryRead(Content(f.disk, f.ip[i]), k, de);
      if Decode(de).inum == 0 {
        return;
      }
      k := k + 1;
      off := off + DESIZE;
    }
  }

  /** Where dirlink panics: it comes upon a last entry that is not whole, or finds no slot in a directory of the largest
      size, or the disk is full. */
  ghost predicate LinkPanics(size: nat, es: seq<T.Ent>, name: T.Name, full: bool) {
    !T.Taken(es, name) && (size % DESIZE != 0 || NoSlot(size, es) || full)
  }

  ghost predicate NoSlot(size: nat, es: seq<T.Ent>) {
    size + DESIZE > MAXFILE * BSIZE && forall k | 0 <= k < |es| :: es[k].inum != 0
  }

  /** dirlink, through readi and writei, does to the entries what Dir.Inodes.Dirlink does. */
  method Dirlink(f: Fs.Fs, i: nat, name: T.Name, inum: nat) returns (ok: bool, r: int, ghost k: nat)
    requires f.Valid() && i < |f.ip| && f.ip[i].kind == T.T_DIR && inum < 0x1_0000 && Plain(name)
    requires forall j | 0 <= j < |f.ip| :: f.ip[j].Valid()
    modifies f`disk, f`ip, f`own, f`logged
    ensures ok ==> f.Valid() && forall j | 0 <= j < |f.ip| :: f.ip[j].Valid()
    ensures ok ==> Dir.Dirlinked(old(Abs(f.disk, f.ip)), Abs(f.disk, f.ip), i, name, inum, r, k)
    ensures ok && r == 0 ==> f.ip[i].size % DESIZE == 0
    ensures ok ==>
      OnlyDir(old(f.ip), f.ip, i) && Costs(f.logged, old(f.logged), f.g.IBlock(i), WriteCost(DESIZE * k, DESIZE))
    ensures Traced(old(f.disk), old(f.logged), f.disk, f.logged)
    ensures !ok ==> LinkPanics(old(f.ip[i]).size, Entries(old(Content(f.disk, f.ip[i]))), name, Full(f.g, f.disk))
    ensures ok ==> !LinkPanics(old(f.ip[i]).size, Entries(old(Content(f.disk, f.ip[i]))), name, false)
  {
    hide Content, FsLayout.Owned, Synced, Entries, Abs, Node, Overwrite, OnlyFile, OnlyDir, Costs, WriteCost, Traced,
      Full, Encode, Inodes;
    TracedNone(f.disk, f.logged);
    CostNone(f.logged, f.g.IBlock(i), 0, DESIZE);
    OnlyDirNone(f.ip, i);
    ghost var d0, ds0 := f.disk, f.ip;
    ghost var bytes := Content(f.disk, f.ip[i]);
    var ip, at;
    k := 0;
    ok, ip, at := Dirlookup(f, i, name);
    if !ok { return false, -1, k; }
    AbsAt(d0, ds0, i);
    FindTaken(Entries(bytes), name);
    if ip != 0 {
      return true, -1, k;
    }
    var off := FindFree(f, i);
    k := off / DESIZE;
    var n;
    SlotOrEnd(f.ip[i].size, Entries(bytes), off);
    ok, n := f.Writei(i, Encode(inum, name), off);
    if !ok || n != DESIZE { return false, -1, k; }
    EntryWritten(bytes, k, inum, name);
    AbsWritten(d0, ds0, f.disk, f.ip, i, Overwrite(bytes, off, Encode(inum, name)));
    OnlyValid(d0, ds0, f.disk, f.ip, i, Overwrite(bytes, off, Encode(inum, name)));
    WholeStill(bytes, off, Encode(inum, name));
    OnlyLength(d0, ds0, f.disk, f.ip, i, Overwrite(bytes, off, Encode(inum, name)));
    return true, 0, k;
  }

  lemma WholeStill(bytes: seq<Byte>, off: nat, src: seq<Byte>)
    requires off % DESIZE == 0 && off <= |bytes| && |bytes| % DESIZE == 0 && |src| == DESIZE
    ensures |Overwrite(bytes, off, src)| % DESIZE == 0
  {
  }

  lemma OnlyLength(d0: seq<Block>, ds0: seq<Inode>, d: seq<Block>, ds: seq<Inode>, i: nat, bytes: seq<Byte>)
    requires OnlyFile(d0, ds0, d, ds, i, bytes)
    ensures i < |ds| && ds[i].size == |bytes|
  {
  }

  /** Only inode i has changed, and only in size and addresses. */
  ghost predicate OnlyDir(ds0: seq<Inode>, ds: seq<Inode>, i: nat) {
    && i < |ds0| && |ds| == |ds0| && (forall j | 0 <= j < |ds0| && j != i :: ds[j] == ds0[j])
    && ds[i] == ds0[i].(size := ds[i].size, addrs := ds[i].addrs)
  }

  lemma OnlyDirNone(ds: seq<Inode>, i: nat)
    requires i < |ds|
    ensures OnlyDir(ds, ds, i)
  {
  }

  lemma SlotOrEnd(size: nat, es: seq<T.Ent>, off: nat)
    requires size % DESIZE == 0 && |es| == size / DESIZE && off % DESIZE == 0 && off <= size
    requires Dir.FirstFree(es, off / DESIZE)
    requires size <= MAXFILE * BSIZE
    ensures off + DESIZE > MAXFILE * BSIZE <==> NoSlot(size, es)
  {
    if off < size { assert es[off / DESIZE].inum == 0; }
  }

  lemma OnlyValid(d0: seq<Block>, ds0: seq<Inode>, d: seq<Block>, ds: seq<Inode>, i: nat, bytes: seq<Byte>)
    requires OnlyFile(d0, ds0, d, ds, i, bytes)
    ensures |ds| == |ds0| && OnlyDir(ds0, ds, i) && forall j | 0 <= j < |ds| :: ds[j].Valid()
  {
  }

  lemma AbsAt(d: seq<Block>, ds: seq<Inode>, i: nat)
    requires (forall j | 0 <= j < |ds| :: ds[j].Valid()) && i < |ds| && ds[i].kind == T.T_DIR
    ensures Abs(d, ds)[i].ents == Entries(Content(d, ds[i]))
  {
  }

  lemma {:induction false} FindTaken(es: seq<T.Ent>, name: T.Name)
    ensures Dir.Find(es, name) != 0 <==> T.Taken(es, name)
    decreases |es|
  {
    if es != [] {
      FindTaken(es[1..], name);
      if T.Taken(es[1..], name) {
        var j :| 0 <= j < |es[1..]| && es[1..][j].inum != 0 && es[1..][j].name == name;
        assert es[j + 1].inum != 0 && es[j + 1].name == name;
      }
      if T.Taken(es, name) && !(es[0].inum != 0 && es[0].name == name) {
        var j :| 0 <= j < |es| && es[j].inum != 0 && es[j].name == name;
        assert es[1..][j - 1].inum != 0 && es[1..][j - 1].name == name;
      }
    }
  }
}
