/** sysfile.c: link, unlink and create on the blocks of the disk, each a whole system call after path lookup. They do to
    the directories what the calls of Dir do, and log no more blocks than begin_op reserves. */
module DirCalls {
  import opened Blocks
  import opened FsLayout
  import opened FsBytes
  import opened FsFree
  import opened DirBytes
  import Fs
  import T = DirTree
  import Dir

  ghost predicate AllValid(ds: seq<Inode>) {
    forall j | 0 <= j < |ds| :: ds[j].Valid()
  }

  // ---------- counting logged blocks ----------

  /** At most n blocks have been logged besides those of the inodes in xs. */
  ghost predicate Spent(lg: set<nat>, lg0: set<nat>, xs: set<nat>, n: int) {
    |lg - lg0 - xs| <= n
  }

  lemma SpentNone(lg: set<nat>, xs: set<nat>)
    ensures Spent(lg, lg, xs, 0)
  {
    assert lg - lg - xs == {};
  }

  lemma SpentInode(lg: set<nat>, lg0: set<nat>, xs: set<nat>, n: int, x: nat)
    requires Spent(lg, lg0, xs, n) && x in xs
    ensures Spent(lg + {x}, lg0, xs, n)
  {
    assert lg + {x} - lg0 - xs == lg - lg0 - xs;
  }

  lemma SpentWrite(lg: set<nat>, lg0: set<nat>, xs: set<nat>, n: int, lg': set<nat>, x: nat, cost: int)
    requires Spent(lg, lg0, xs, n) && x in xs && Costs(lg', lg, x, cost)
    ensures Spent(lg', lg0, xs, n + cost)
  {
    SubsetSize(lg' - lg0 - xs, (lg - lg0 - xs) + (lg' - lg - {x}));
  }

  lemma SpentAll(lg: set<nat>, lg0: set<nat>, xs: set<nat>, n: int)
    requires Spent(lg, lg0, xs, n)
    ensures |lg - lg0| <= n + |xs|
  {
    SubsetSize(lg - lg0, (lg - lg0 - xs) + xs);
  }

  lemma TwoInodes(x: nat, y: nat)
    ensures |{x, y}| <= 2
  {
  }

  /** An entry lies in one block. */
  lemma EntryCost(k: nat)
    ensures WriteCost(DESIZE * k, DESIZE) <= 4
    ensures k == 0 ==> WriteCost(DESIZE * k, DESIZE) == 2
    ensures k == 1 ==> WriteCost(DESIZE * k, DESIZE) == 1
  {
    var p := DESIZE * k % BSIZE;
    assert p % DESIZE == 0;
    assert Touched(DESIZE * k, DESIZE) == (p + DESIZE + BSIZE - 1) / BSIZE == 1;
  }

  // ---------- inodes restamped ----------

  /** A change of type or link count is one of the node. */
  lemma AbsStamped(d: seq<Block>, ds: seq<Inode>, e: seq<Block>, i: nat, ino: Inode)
    requires i < |ds| && AllValid(ds) && ino.Valid() && SameContents(d, ds, e, ds[i := ino]) && ino.kind == ds[i].kind
    ensures AllValid(ds[i := ino]) && Abs(e, ds[i := ino]) == Abs(d, ds)[i := Abs(d, ds)[i].(nlink := ino.nlink)]
  {
    hide DirBytes.Entries, Content;
  }

  /** nlink changes, and iupdate. */
  method SetLinks(f: Fs.Fs, i: nat, n: nat)
    requires f.Valid() && AllValid(f.ip) && i < |f.ip| && n < 0x1_0000
    modifies f`disk, f`ip, f`logged
    ensures f.Valid() && AllValid(f.ip) && f.ip == old(f.ip)[i := old(f.ip[i]).(nlink := n)]
    ensures Abs(f.disk, f.ip) == old(Abs(f.disk, f.ip))[i := old(Abs(f.disk, f.ip))[i].(nlink := n)]
    ensures Traced(old(f.disk), old(f.logged), f.disk, f.logged) && f.logged == old(f.logged) + {f.g.IBlock(i)}
  {
    hide FsLayout.Owned, Synced, Abs, Node, Traced, SameContents;
    ghost var d0, ds0 := f.disk, f.ip;
    f.Restamp(i, f.ip[i].(nlink := n));
    AbsStamped(d0, ds0, f.disk, i, ds0[i].(nlink := n));
  }

  // ---------- link ----------

  /** sys_link, once both inodes are found. */
  method Link(f: Fs.Fs, ip: nat, dp: nat, name: T.Name) returns (ok: bool, r: int, ghost k: nat)
    requires f.Valid() && AllValid(f.ip) && 0 < ip < |f.ip| && ip < 0x1_0000 && f.ip[ip].kind != 0 && dp < |f.ip|
    requires f.ip[dp].kind == T.T_DIR && Plain(name) && f.ip[ip].nlink + 1 < 0x1_0000
    modifies f`disk, f`ip, f`own, f`logged
    ensures ok ==> f.Valid() && AllValid(f.ip)
    ensures ok ==> Dir.Linked(old(Abs(f.disk, f.ip)), Abs(f.disk, f.ip), ip, dp, name, r, k)
    ensures Traced(old(f.disk), old(f.logged), f.disk, f.logged)
    ensures ok ==> |f.logged - old(f.logged)| <= 6
    ensures !ok ==> old(f.ip[ip]).kind != T.T_DIR
    ensures !ok ==>
      LinkPanics(old(f.ip[dp]).size, DirBytes.Entries(old(Content(f.disk, f.ip[dp]))), name, Full(f.g, f.disk))
    ensures ok && old(f.ip[ip]).kind != T.T_DIR ==>
      !LinkPanics(old(f.ip[dp]).size, DirBytes.Entries(old(Content(f.disk, f.ip[dp]))), name, false)
  {
    hide Content, FsLayout.Owned, Synced, Abs, Node, Traced, Spent, Costs, WriteCost, Dir.Linked, Dir.Dirlinked,
      OnlyDir, Full, LinkPanics, DirBytes.Entries, T.Taken, Inodes;
    ghost var d0, lg0, s, xs := f.disk, f.logged, Abs(f.disk, f.ip), {f.g.IBlock(ip), f.g.IBlock(dp)};
    ghost var n := f.ip[ip].nlink;
    AbsKind(f.disk, f.ip, ip);
    AbsKind(f.disk, f.ip, dp);
    TracedNone(d0, lg0);
    SpentNone(lg0, xs);
    k := 0;
    if f.ip[ip].kind == T.T_DIR {
      LinkedNone(s, ip, dp, name, k);
      return true, -1, k;
    }
    SetLinks(f, ip, f.ip[ip].nlink + 1);
    SpentInode(lg0, lg0, xs, 0, f.g.IBlock(ip));
    ghost var d1, ds1, lg1, u := f.disk, f.ip, f.logged, Abs(f.disk, f.ip);
    AbsKind(f.disk, f.ip, dp);
    ok, r, k := Dirlink(f, dp, name, ip);
    TracedMore(d0, lg0, d1, lg1, f.disk, f.logged);
    if !ok { return; }
    EntryCost(k);
    SpentWrite(lg1, lg0, xs, 0, f.logged, f.g.IBlock(dp), WriteCost(DESIZE * k, DESIZE));
    ghost var d2, lg2, t := f.disk, f.logged, Abs(f.disk, f.ip);
    LinkDone(s, u, t, ip, dp, name, r, k);
    if r < 0 {
      OtherDir(ds1, f.ip, dp, ip);
      SetLinks(f, ip, f.ip[ip].nlink - 1);
      TracedMore(d0, lg0, d2, lg2, f.disk, f.logged);
      SpentInode(lg2, lg0, xs, WriteCost(DESIZE * k, DESIZE), f.g.IBlock(ip));
      LinkUndone(s, u, t, Abs(f.disk, f.ip), ip, dp, name, k);
    }
    SpentAll(f.logged, lg0, xs, WriteCost(DESIZE * k, DESIZE));
    TwoInodes(f.g.IBlock(ip), f.g.IBlock(dp));
  }

  lemma AbsKind(d: seq<Block>, ds: seq<Inode>, i: nat)
    requires AllValid(ds) && i < |ds|
    ensures Abs(d, ds)[i].typ == ds[i].kind && Abs(d, ds)[i].nlink == ds[i].nlink
    ensures ds[i].kind == T.T_DIR ==> Abs(d, ds)[i].ents == DirBytes.Entries(Content(d, ds[i]))
  {
  }

  lemma OtherDir(ds0: seq<Inode>, ds: seq<Inode>, i: nat, j: nat)
    requires OnlyDir(ds0, ds, i) && j < |ds0|
    ensures |ds| == |ds0| && ds[j].nlink == ds0[j].nlink && ds[j].kind == ds0[j].kind
    ensures i != j ==> ds[j].size == ds0[j].size
  {
  }

  lemma LinkedNone(s: seq<T.Inode>, ip: nat, dp: nat, name: T.Name, k: nat)
    requires ip < |s| && dp < |s| && s[ip].typ == T.T_DIR
    ensures Dir.Linked(s, s, ip, dp, name, -1, k)
  {
  }

  lemma LinkDone(s: seq<T.Inode>, u: seq<T.Inode>, t: seq<T.Inode>, ip: nat, dp: nat, name: T.Name, r: int, k: nat)
    requires ip < |s| && dp < |s| && s[ip].typ != T.T_DIR && s[dp].typ == T.T_DIR
    requires u == s[ip := s[ip].(nlink := s[ip].nlink + 1)] && Dir.Dirlinked(u, t, dp, name, ip, r, k)
    ensures r == 0 || r == -1
    ensures r == 0 ==> Dir.Linked(s, t, ip, dp, name, r, k)
    ensures r == -1 ==> t == u && T.Taken(s[dp].ents, name)
  {
  }

  lemma LinkUndone(s: seq<T.Inode>, u: seq<T.Inode>, t: seq<T.Inode>, v: seq<T.Inode>, ip: nat, dp: nat, name: T.Name,
                   k: nat)
    requires ip < |s| && dp < |s| && u == s[ip := s[ip].(nlink := s[ip].nlink + 1)] && t == u
    requires T.Taken(s[dp].ents, name)
    requires v == t[ip := t[ip].(nlink := s[ip].nlink)]
    ensures v == s && Dir.Linked(s, v, ip, dp, name, -1, k)
  {
  }

  // ---------- unlink ----------

  /** isdirempty, which panics on a last entry that is not whole. */
  method Isdirempty(f: Fs.Fs, d: nat) returns (ok: bool, r: bool)
    requires f.Valid() && d < |f.ip| && f.ip[d].kind == T.T_DIR && f.ip[d].Valid()
    modifies f`disk, f`ip, f`own, f`logged
    ensures f.Valid() && f.disk == old(f.disk) && f.ip == old(f.ip) && f.logged == old(f.logged)
    ensures ok ==> (r <==> T.Empty(DirBytes.Entries(Content(f.disk, f.ip[d]))))
    ensures f.ip[d].size % DESIZE == 0 ==> ok
  {
    hide Content, FsLayout.Owned, Synced, NameOf;
    ghost var es := DirBytes.Entries(Content(f.disk, f.ip[d]));
    ghost var k := 2;
    var off := 2 * DESIZE;
    while off < f.ip[d].size
      invariant off == DESIZE * k && 2 <= k
      invariant f.Valid() && f.disk == old(f.disk) && f.ip == old(f.ip) && f.logged == old(f.logged)
      invariant forall j | 2 <= j < k && j < |es| :: es[j].inum == 0
    {
      var n, de := f.Readi(d, off, DESIZE);
      if n != DESIZE {
        return false, false;
      }
      EntryRead(Content(f.disk, f.ip[d]), k, de);
      if DirBytes.Decode(de).inum != 0 {
        return true, false;
      }
      k := k + 1;
      off := off + DESIZE;
    }
    return true, true;
  }

  /** The stores of sys_unlink. */
  method Erase(f: Fs.Fs, dp: nat, ip: nat, off: nat, ghost k: nat)
    requires f.Valid() && AllValid(f.ip) && dp < |f.ip| && ip < |f.ip| && ip != dp && f.ip[dp].kind == T.T_DIR
    requires off == DESIZE * k && off + DESIZE <= f.ip[dp].size && f.ip[ip].nlink >= 1 && f.ip[dp].nlink >= 1
    requires DirBytes.Entries(Content(f.disk, f.ip[dp]))[k].inum == ip
    modifies f`disk, f`ip, f`own, f`logged
    ensures f.Valid() && AllValid(f.ip)
    ensures Abs(f.disk, f.ip) == Erased(old(Abs(f.disk, f.ip)), dp, ip, k)
    ensures Traced(old(f.disk), old(f.logged), f.disk, f.logged) && |f.logged - old(f.logged)| <= 6
    ensures Spent(f.logged, old(f.logged), {f.g.IBlock(ip), f.g.IBlock(dp)}, 4)
  {
    hide Content, FsLayout.Owned, Synced, Abs, Node, Traced, Spent, Costs, WriteCost, OnlyDir, OnlyFile, Overwrite,
      DirBytes.Entries, AllThere, Full, Inodes;
    ghost var d0, ds0, lg0, s, xs := f.disk, f.ip, f.logged, Abs(f.disk, f.ip), {f.g.IBlock(ip), f.g.IBlock(dp)};
    ghost var bytes := Content(f.disk, f.ip[dp]);
    AbsKind(d0, ds0, dp);
    AbsKind(d0, ds0, ip);
    SpentNone(lg0, xs);
    var zeros: seq<Byte> := seq(DESIZE, _ => 0);
    var ok, n := f.Writei(dp, zeros, off);
    ghost var d1, lg1 := f.disk, f.logged;
    EntryCost(k);
    EntryCleared(bytes, k);
    SpentWrite(lg0, lg0, xs, 0, lg1, f.g.IBlock(dp), WriteCost(off, DESIZE));
    AbsWritten(d0, ds0, d1, f.ip, dp, Overwrite(bytes, off, zeros));
    OnlyValid(d0, ds0, d1, f.ip, dp, Overwrite(bytes, off, zeros));
    OtherDir(ds0, f.ip, dp, ip);
    OtherDir(ds0, f.ip, dp, dp);
    if f.ip[ip].kind == T.T_DIR {
      SetLinks(f, dp, f.ip[dp].nlink - 1);
      TracedMore(d0, lg0, d1, lg1, f.disk, f.logged);
      SpentInode(lg1, lg0, xs, WriteCost(off, DESIZE), f.g.IBlock(dp));
    }
    ghost var d2, lg2 := f.disk, f.logged;
    SetLinks(f, ip, f.ip[ip].nlink - 1);
    TracedMore(d0, lg0, d2, lg2, f.disk, f.logged);
    SpentInode(lg2, lg0, xs, WriteCost(off, DESIZE), f.g.IBlock(ip));
    SpentLess(f.logged, lg0, xs, WriteCost(off, DESIZE), 4);
    SpentAll(f.logged, lg0, xs, 4);
    TwoInodes(f.g.IBlock(ip), f.g.IBlock(dp));
  }

  lemma SpentLess(lg: set<nat>, lg0: set<nat>, xs: set<nat>, n: int, m: int)
    requires Spent(lg, lg0, xs, n) && n <= m
    ensures Spent(lg, lg0, xs, m)
  {
  }

  /** What the stores do to the nodes. */
  ghost function Erased(s: seq<T.Inode>, dp: nat, ip: nat, k: nat): seq<T.Inode>
    requires dp < |s| && ip < |s| && k < |s[dp].ents|
  {
    var a := s[dp := s[dp].(ents := s[dp].ents[k := T.BLANK])];
    var b := if s[ip].typ == T.T_DIR then a[dp := a[dp].(nlink := a[dp].nlink - 1)] else a;
    b[ip := b[ip].(nlink := b[ip].nlink - 1)]
  }

  lemma ErasedIs(s: seq<T.Inode>, dp: nat, k: nat)
    requires dp < |s| && k < |s[dp].ents| && s[dp].ents[k].inum < |s| && s[dp].ents[k].inum != dp
    ensures Erased(s, dp, s[dp].ents[k].inum, k) == T.Unlinked(s, dp, k)
  {
  }

  /** Every directory's size is a whole number of entries. */
  ghost predicate WholeEntries(ds: seq<Inode>) {
    forall j | 0 <= j < |ds| && ds[j].kind == T.T_DIR :: ds[j].size % DESIZE == 0
  }

  /** sys_unlink, once the directory is found. */
  method Unlink(f: Fs.Fs, dp: nat, name: T.Name, ghost h: seq<nat>) returns (ok: bool, r: int, ghost k: nat)
    requires f.Valid() && AllValid(f.ip) && 0 < dp < |f.ip| && f.ip[dp].kind == T.T_DIR
    requires T.Inv(Abs(f.disk, f.ip), h) && Dir.Hollow(Abs(f.disk, f.ip))
    modifies f`disk, f`ip, f`own, f`logged
    ensures f.Valid() && AllValid(f.ip)
    ensures ok ==> Dir.Removed(old(Abs(f.disk, f.ip)), Abs(f.disk, f.ip), dp, name, r, k)
    ensures Traced(old(f.disk), old(f.logged), f.disk, f.logged) && |f.logged - old(f.logged)| <= 6
    ensures old(WholeEntries(f.ip)) ==> ok
  {
    hide Content, FsLayout.Owned, Synced, Abs, Node, Traced, Spent, DirBytes.Entries, T.Inv, Dir.Hollow, Dir.Removed,
      Dir.Removable, T.Taken, T.Empty, Erased, T.Unlinked;
    ghost var d0, lg0, s := f.disk, f.logged, Abs(f.disk, f.ip);
    AbsKind(f.disk, f.ip, dp);
    TracedNone(d0, lg0);
    assert lg0 - lg0 == {};
    k := 0;
    if name == "." || name == ".." {
      NoDots(s, h, dp, name, k);
      return true, -1, k;
    }
    var ip, off;
    ok, ip, off := Dirlookup(f, dp, name);
    if !ok { return false, -1, k; }
    FindTaken(s[dp].ents, name);
    if ip == 0 {
      NotTaken(s, dp, name, k);
      return true, -1, k;
    }
    k := off / DESIZE;
    UnlinkFound(s, h, dp, k, name);
    AbsKind(f.disk, f.ip, ip);
    if f.ip[ip].kind == T.T_DIR {
      var e;
      ok, e := Isdirempty(f, ip);
      if !ok { return false, -1, k; }
      if !e {
        UnlinkBusy(s, h, dp, k, name);
        return true, -1, k;
      }
    }
    UnlinkReady(s, h, dp, k, name);
    Erase(f, dp, ip, off, k);
    ErasedIs(s, dp, k);
    return true, 0, k;
  }

  lemma NoDots(s: seq<T.Inode>, h: seq<nat>, dp: nat, name: T.Name, k: nat)
    requires T.Inv(s, h) && Dir.Hollow(s) && 0 < dp < |s| && s[dp].typ == T.T_DIR && (name == "." || name == "..")
    ensures Dir.Removed(s, s, dp, name, -1, k)
  {
    hide T.Inv, Dir.Hollow, Dir.Removable;
    if s[dp].Linked() { Dir.DotsFirst(s, h, dp); } else { Dir.RemovedHolds(s, dp, name); }
  }

  lemma NotTaken(s: seq<T.Inode>, dp: nat, name: T.Name, k: nat)
    requires dp < |s| && !T.Taken(s[dp].ents, name)
    ensures Dir.Removed(s, s, dp, name, -1, k)
  {
    hide T.Taken, Dir.Removable;
    Dir.NotThere(s, dp, name);
  }

  /** A name that is there, and no dot, is that of a place in a linked directory. */
  lemma UnlinkFound(s: seq<T.Inode>, h: seq<nat>, dp: nat, k: nat, name: T.Name)
    requires T.Inv(s, h) && Dir.Hollow(s) && 0 < dp < |s| && s[dp].typ == T.T_DIR && name != "." && name != ".."
    requires k < |s[dp].ents| && s[dp].ents[k].name == name && s[dp].ents[k].inum != 0
    ensures s[dp].Linked() && k >= 2 && s[dp].ents[k].inum < |s|
  {
    hide T.Inv, Dir.Hollow, Dir.Removable;
    assert T.Taken(s[dp].ents, name);
    if !s[dp].Linked() { Dir.RemovedHolds(s, dp, name); }
    Dir.EntryIn(s, h, dp, k);
  }

  lemma UnlinkBusy(s: seq<T.Inode>, h: seq<nat>, dp: nat, k: nat, name: T.Name)
    requires T.Inv(s, h) && 0 < dp < |s| && s[dp].Linked() && 2 <= k < |s[dp].ents| && s[dp].ents[k].inum != 0
    requires s[dp].ents[k].name == name && s[dp].ents[k].inum < |s|
    requires s[s[dp].ents[k].inum].typ == T.T_DIR && !T.Empty(s[s[dp].ents[k].inum].ents)
    ensures Dir.Removed(s, s, dp, name, -1, k)
  {
    hide T.Inv, T.Empty, Dir.Removable;
    Dir.InUse(s, h, dp, k, name);
  }

  lemma UnlinkReady(s: seq<T.Inode>, h: seq<nat>, dp: nat, k: nat, name: T.Name)
    requires T.Inv(s, h) && 0 < dp < |s| && s[dp].Linked() && 2 <= k < |s[dp].ents| && s[dp].ents[k].inum != 0
    requires s[dp].ents[k].name == name && s[dp].ents[k].inum < |s|
    requires s[s[dp].ents[k].inum].typ == T.T_DIR ==> T.Empty(s[s[dp].ents[k].inum].ents)
    ensures s[dp].ents[k].inum != dp && s[s[dp].ents[k].inum].nlink >= 1 && s[dp].nlink >= 1
    ensures Dir.Removed(s, T.Unlinked(s, dp, k), dp, name, 0, k)
  {
    hide T.Inv, T.Empty, T.Unlinked;
    T.UnlinkTarget(s, h, dp, k);
  }

  /** iput, as the nodes see it. */
  method Put(f: Fs.Fs, i: nat, refs: nat)
    requires f.Valid() && AllValid(f.ip) && i < |f.ip| && refs >= 1
    modifies f`disk, f`ip, f`own, f`logged
    ensures f.Valid() && AllValid(f.ip)
    ensures Abs(f.disk, f.ip) == if old(f.ip)[i].nlink == 0
      && refs == 1 then old(Abs(f.disk, f.ip))[i := T.Inode(0, 0, [])]
                                 else old(Abs(f.disk, f.ip))
    ensures Traced(old(f.disk), old(f.logged), f.disk, f.logged) && |f.logged - old(f.logged)| <= f.g.size / BITS + 2
  {
    hide Content, FsLayout.Owned, Synced, Abs, Traced, InUse, Maps, Slot;
    ghost var d0, ds0 := f.disk, f.ip;
    var ok, r := f.Iput(i, refs);
    if ds0[i].nlink == 0 && refs == 1 {
      AbsPut(d0, ds0, f.disk, f.ip, i);
    }
  }

  lemma AbsPut(d: seq<Block>, ds: seq<Inode>, e: seq<Block>, es: seq<Inode>, i: nat)
    requires i < |ds| == |es| && AllValid(ds) && ds[i].nlink == 0
    requires es[i] == ds[i].(kind := 0, size := 0, addrs := seq(NDIRECT + 1, _ => 0))
    requires forall j | 0 <= j < |ds| && j != i :: es[j] == ds[j] && Content(e, es[j]) == Content(d, ds[j])
    ensures AllValid(es) && Abs(e, es) == Abs(d, ds)[i := T.Inode(0, 0, [])]
  {
    hide Content, DirBytes.Entries;
    assert AllValid(es) by {
      forall j | 0 <= j < |es| ensures es[j].Valid() { if j != i { assert es[j] == ds[j]; } }
    }
  }

  // ---------- create ----------

  /** A new inode of the kind, its link counted; 0 is the panic. */
  method NewInode(f: Fs.Fs, kind: nat) returns (ip: nat)
    requires f.Valid() && AllValid(f.ip) && FreeBlank(f.ip) && 0 < kind < 0x1_0000
    modifies f`disk, f`ip, f`logged
    ensures f.Valid() && AllValid(f.ip) && Traced(old(f.disk), old(f.logged), f.disk, f.logged)
    ensures ip == 0 ==> f.disk == old(f.disk) && f.ip == old(f.ip) && f.logged == old(f.logged)
    ensures ip == 0 ==> forall i | 1 <= i < |f.ip| :: f.ip[i].kind != 0
    ensures ip != 0 ==>
      ip < |f.ip| == |old(f.ip)| && old(f.ip)[ip].kind == 0 && f.logged == old(f.logged) + {f.g.IBlock(ip)}
    ensures ip != 0 ==> forall i | 1 <= i < ip :: old(f.ip)[i].kind != 0
    ensures ip != 0 ==> f.ip == old(f.ip)[ip := NoInode().(kind := kind, nlink := 1)]
    ensures ip != 0 ==> Abs(f.disk, f.ip) == old(Abs(f.disk, f.ip))[ip := T.Inode(kind, 1, [])]
  {
    hide Content, FsLayout.Owned, Synced, Abs, Traced, SameContents, FreeBlank, NoInode;
    ghost var d0, ds0, lg0 := f.disk, f.ip, f.logged;
    ip := f.Ialloc(kind);
    if ip == 0 { return; }
    ghost var d1, ds1, lg1 := f.disk, f.ip, f.logged;
    BlankStays(ds0, ip, kind);
    AbsNew(d0, ds0, d1, ip, kind);
    SetLinks(f, ip, 1);
    TracedMore(d0, lg0, d1, lg1, f.disk, f.logged);
  }

  lemma BlankStays(ds: seq<Inode>, ip: nat, kind: nat)
    requires AllValid(ds) && ip < |ds| && kind < 0x1_0000
    ensures AllValid(ds[ip := NoInode().(kind := kind)])
    ensures ds[ip := NoInode().(kind := kind)][ip := NoInode().(kind := kind).(nlink := 1)]
         == ds[ip := NoInode().(kind := kind, nlink := 1)]
  {
  }

  lemma AbsNew(d: seq<Block>, ds: seq<Inode>, e: seq<Block>, ip: nat, kind: nat)
    requires ip < |ds| && AllValid(ds) && kind < 0x1_0000 && SameContents(d, ds, e, ds[ip := NoInode().(kind := kind)])
    ensures AllValid(ds[ip := NoInode().(kind := kind)])
    ensures Abs(e, ds[ip := NoInode().(kind := kind)]) == Abs(d, ds)[ip := T.Inode(kind, 0, [])]
  {
    hide Content;
    NoEntries(e, NoInode().(kind := kind));
    hide DirBytes.Entries;
    assert AllValid(ds[ip := NoInode().(kind := kind)]);
  }

  lemma NoEntries(d: seq<Block>, ino: Inode)
    requires ino.Valid() && ino.size == 0
    ensures DirBytes.Entries(Content(d, ino)) == []
  {
  }

  /** The two dirlinks into a new directory. */
  method Dots(f: Fs.Fs, ip: nat, dp: nat, ghost xs: set<nat>, ghost lg0: set<nat>, ghost n: int) returns (ok: bool)
    requires f.Valid() && AllValid(f.ip) && 0 < ip < |f.ip| && ip < 0x1_0000 && 0 < dp < 0x1_0000
    requires f.ip[ip] == NoInode().(kind := 1, nlink := 1) && Abs(f.disk, f.ip)[ip] == T.Inode(T.T_DIR, 1, [])
    requires f.g.IBlock(ip) in xs && Spent(f.logged, lg0, xs, n)
    modifies f`disk, f`ip, f`own, f`logged
    ensures Traced(old(f.disk), old(f.logged), f.disk, f.logged) && (!ok ==> Full(f.g, f.disk))
    ensures ok ==> f.Valid() && AllValid(f.ip) && OnlyDir(old(f.ip), f.ip, ip) && Spent(f.logged, lg0, xs, n + 3)
    ensures ok ==>
      Abs(f.disk, f.ip) == old(Abs(f.disk, f.ip))[ip := T.Inode(T.T_DIR, 1, [T.Ent(ip, "."), T.Ent(dp, "..")])]
  {
    hide Content, FsLayout.Owned, Synced, Abs, Traced, Spent, Costs, WriteCost, OnlyDir, NoInode, DirBytes.Entries,
      Dir.Dirlinked, LinkPanics, Full;
    ghost var d0, ds0, lg, s := f.disk, f.ip, f.logged, Abs(f.disk, f.ip);
    BlankSize(f.ip[ip]);
    AbsKind(f.disk, f.ip, ip);
    var r;
    ghost var k;
    ok, r, k := Dirlink(f, ip, ".", ip);
    EmptyPanics(Full(f.g, f.disk));
    if !ok { return; }
    ghost var d1, ds1, lg1, t := f.disk, f.ip, f.logged, Abs(f.disk, f.ip);
    FirstDot(s, t, ip, r, k);
    EntryCost(0);
    SpentWrite(lg, lg0, xs, n, lg1, f.g.IBlock(ip), 2);
    OtherDir(ds0, ds1, ip, ip);
    AbsKind(f.disk, f.ip, ip);
    DotPanics(f.ip[ip].size, t[ip].ents, Full(f.g, f.disk));
    ok, r, k := Dirlink(f, ip, "..", dp);
    TracedMore(d0, lg, d1, lg1, f.disk, f.logged);
    DotPanics(ds1[ip].size, t[ip].ents, Full(f.g, f.disk));
    if !ok { return; }
    SecondDot(s, t, Abs(f.disk, f.ip), ip, dp, r, k);
    EntryCost(1);
    SpentWrite(lg1, lg0, xs, n + 2, f.logged, f.g.IBlock(ip), 1);
    OnlyTwice(ds0, ds1, f.ip, ip);
  }

  lemma BlankSize(ino: Inode)
    requires ino == NoInode().(kind := 1, nlink := 1)
    ensures ino.size == 0 && ino.kind == T.T_DIR
  {
  }

  lemma EmptyPanics(full: bool)
    ensures LinkPanics(0, [], ".", full) ==> full
  {
  }

  lemma DotPanics(size: nat, es: seq<T.Ent>, full: bool)
    requires |es| == 1 && size / DESIZE == 1 && size % DESIZE == 0 && es[0].name == "."
    ensures LinkPanics(size, es, "..", full) ==> full
  {
  }

  lemma FirstDot(s: seq<T.Inode>, t: seq<T.Inode>, ip: nat, r: int, k: nat)
    requires 0 < ip < |s| && s[ip] == T.Inode(T.T_DIR, 1, []) && Dir.Dirlinked(s, t, ip, ".", ip, r, k)
    ensures r == 0 && k == 0 && t == s[ip := T.Inode(T.T_DIR, 1, [T.Ent(ip, ".")])]
  {
    assert !T.Taken([], ".");
    assert T.Put([], 0, T.Ent(ip, ".")) == [T.Ent(ip, ".")];
  }

  lemma SecondDot(s: seq<T.Inode>, t: seq<T.Inode>, u: seq<T.Inode>, ip: nat, dp: nat, r: int, k: nat)
    requires 0 < ip < |s| && t == s[ip := T.Inode(T.T_DIR, 1, [T.Ent(ip, ".")])]
    requires Dir.Dirlinked(t, u, ip, "..", dp, r, k)
    ensures r == 0 && k == 1 && u == s[ip := T.Inode(T.T_DIR, 1, [T.Ent(ip, "."), T.Ent(dp, "..")])]
  {
    var es := [T.Ent(ip, ".")];
    assert !T.Taken(es, "..");
    assert es[0].inum != 0;
    assert T.Put(es, 1, T.Ent(dp, "..")) == [T.Ent(ip, "."), T.Ent(dp, "..")];
  }

  lemma OnlyTwice(ds0: seq<Inode>, ds1: seq<Inode>, ds: seq<Inode>, i: nat)
    requires OnlyDir(ds0, ds1, i) && OnlyDir(ds1, ds, i)
    ensures OnlyDir(ds0, ds, i)
  {
  }

  /** create, once the directory is found: what Dir.Inodes.Create does, in at most nine blocks. -1 is ialloc's panic. */
  method Create(f: Fs.Fs, dp: nat, name: T.Name, kind: nat, ghost h: seq<nat>) returns (ok: bool, r: int, ghost k: nat)
    requires f.Valid() && AllValid(f.ip) && FreeBlank(f.ip) && 0 < dp < |f.ip| <= 0x1_0000 && f.ip[dp].kind == T.T_DIR
    requires T.Inv(Abs(f.disk, f.ip), h) && Dir.Hollow(Abs(f.disk, f.ip))
    requires 0 < kind < 0x1_0000 && Plain(name) && f.ip[dp].nlink + 1 < 0x1_0000
    modifies f`disk, f`ip, f`own, f`logged
    ensures ok ==> f.Valid() && AllValid(f.ip)
    ensures ok ==> Dir.Created(old(Abs(f.disk, f.ip)), Abs(f.disk, f.ip), dp, name, kind, r, k)
    ensures Traced(old(f.disk), old(f.logged), f.disk, f.logged)
    ensures ok ==> |f.logged - old(f.logged)| <= 9
    ensures !ok ==>
      LinkPanics(old(f.ip[dp]).size, DirBytes.Entries(old(Content(f.disk, f.ip[dp]))), name, Full(f.g, f.disk))
  {
    hide Content, FsLayout.Owned, Synced, Abs, Node, Traced, DirBytes.Entries, T.Inv, Dir.Hollow, T.Taken, Dir.Created,
      FreeBlank, NoInode, LinkPanics, Full;
    ghost var d0, ds0, lg0, s := f.disk, f.ip, f.logged, Abs(f.disk, f.ip);
    AbsKind(f.disk, f.ip, dp);
    TracedNone(d0, lg0);
    assert lg0 - lg0 == {};
    k := 0;
    var ip, off;
    ok, ip, off := Dirlookup(f, dp, name);
    Broken(f.ip[dp].size, s[dp].ents, name, Full(f.g, f.disk));
    if !ok { return false, -1, k; }
    FindTaken(s[dp].ents, name);
    if ip != 0 {
      Dir.AnyEntryIn(s, h, dp, off / DESIZE);
      AbsKind(f.disk, f.ip, ip);
      k := off / DESIZE;
      CreatedOld(s, dp, name, kind, k);
      r := if kind == T.T_FILE && f.ip[ip].kind == T.T_FILE then ip else 0;
      return;
    }
    ip := NewInode(f, kind);
    if ip == 0 {
      AbsKinds(f.disk, f.ip);
      CreatedNone(s, dp, name, kind, k);
      return true, -1, k;
    }
    AbsKinds(d0, ds0);
    ok, k := Enter(f, dp, name, kind, ip, d0, lg0, s, h);
    r := ip;
  }

  lemma Broken(size: nat, es: seq<T.Ent>, name: T.Name, full: bool)
    ensures !T.Taken(es, name) && size % DESIZE != 0 ==> LinkPanics(size, es, name, full)
  {
    hide T.Taken;
  }

  lemma FullPanics(size: nat, es: seq<T.Ent>, name: T.Name)
    ensures !T.Taken(es, name) ==> LinkPanics(size, es, name, true)
  {
    hide T.Taken;
  }

  lemma AbsKinds(d: seq<Block>, ds: seq<Inode>)
    requires AllValid(ds)
    ensures forall i | 0 <= i < |ds| :: Abs(d, ds)[i].typ == ds[i].kind
  {
  }

  lemma CreatedOld(s: seq<T.Inode>, dp: nat, name: T.Name, kind: int, k: nat)
    requires dp < |s| && Dir.FirstNamed(s[dp].ents, name, k) && s[dp].ents[k].inum < |s|
    ensures var r := if kind == T.T_FILE && s[s[dp].ents[k].inum].typ == T.T_FILE then s[dp].ents[k].inum else 0;
            Dir.Created(s, s, dp, name, kind, r, k)
  {
    assert T.Taken(s[dp].ents, name);
  }

  lemma CreatedNone(s: seq<T.Inode>, dp: nat, name: T.Name, kind: int, k: nat)
    requires dp < |s| && !T.Taken(s[dp].ents, name) && forall i | 1 <= i < |s| :: s[i].typ != 0
    ensures Dir.Created(s, s, dp, name, kind, -1, k)
  {
  }

  /** The rest of create: the parent's link for "..", the dots, and the name. */
  method Enter(f: Fs.Fs, dp: nat, name: T.Name, kind: nat, ip: nat, ghost d0: seq<Block>, ghost lg0: set<nat>,
               ghost s: seq<T.Inode>, ghost h: seq<nat>) returns (ok: bool, ghost k: nat)
    requires f.Valid() && AllValid(f.ip) && 0 < dp < |f.ip| <= 0x1_0000 && 0 < ip < |f.ip| && ip != dp
    requires f.ip[dp].kind == T.T_DIR && f.ip[dp].nlink + 1 < 0x1_0000 && Plain(name) && 0 < kind < 0x1_0000
    requires f.ip[ip] == NoInode().(kind := kind, nlink := 1) && |s| == |f.ip| && T.Inv(s, h)
    requires s[ip].typ == 0 && (forall i | 1 <= i < ip :: s[i].typ != 0) && s[dp].typ == T.T_DIR
    requires !T.Taken(s[dp].ents, name)
    requires Abs(f.disk, f.ip) == s[ip := T.Inode(kind, 1, [])]
    requires Traced(d0, lg0, f.disk, f.logged) && f.logged == lg0 + {f.g.IBlock(ip)}
    modifies f`disk, f`ip, f`own, f`logged
    ensures ok ==> f.Valid() && AllValid(f.ip)
    ensures ok ==> Dir.Created(s, Abs(f.disk, f.ip), dp, name, kind, ip, k)
    ensures Traced(d0, lg0, f.disk, f.logged)
    ensures ok ==> |f.logged - lg0| <= 9
    ensures !ok ==> LinkPanics(old(f.ip[dp]).size, s[dp].ents, name, Full(f.g, f.disk))
  {
    hide Content, FsLayout.Owned, Synced, Abs, Node, Traced, Spent, Costs, WriteCost, OnlyDir, NoInode,
      DirBytes.Entries, Dir.Dirlinked, LinkPanics, Full, T.Inv, T.Taken, Dir.Created;
    ghost var xs := {f.g.IBlock(ip), f.g.IBlock(dp)};
    SpentNone(lg0, xs);
    SpentInode(lg0, lg0, xs, 0, f.g.IBlock(ip));
    ghost var n := 0;
    if kind == T.T_DIR {
      ok := Parent(f, ip, dp, xs, d0, lg0);
      FullPanics(old(f.ip[dp]).size, s[dp].ents, name);
      if !ok { k := 0; return; }
      n := 3;
    }
    ghost var d1, lg1, u := f.disk, f.logged, Abs(f.disk, f.ip);
    AbsKind(f.disk, f.ip, dp);
    var d;
    ok, d, k := Dirlink(f, dp, name, ip);
    TracedMore(d0, lg0, d1, lg1, f.disk, f.logged);
    if !ok { return; }
    EntryCost(k);
    SpentWrite(lg1, lg0, xs, n, f.logged, f.g.IBlock(dp), WriteCost(DESIZE * k, DESIZE));
    SpentAll(f.logged, lg0, xs, n + WriteCost(DESIZE * k, DESIZE));
    TwoInodes(f.g.IBlock(ip), f.g.IBlock(dp));
    EnterDone(s, h, u, Abs(f.disk, f.ip), dp, name, kind, ip, d, k);
  }

  /** create's work for a directory before it is named. */
  method Parent(f: Fs.Fs, ip: nat, dp: nat, ghost xs: set<nat>, ghost d0: seq<Block>, ghost lg0: set<nat>)
    returns (ok: bool)
    requires f.Valid() && AllValid(f.ip) && 0 < dp < |f.ip| <= 0x1_0000 && 0 < ip < |f.ip| && ip != dp
    requires f.ip[dp].kind == T.T_DIR && f.ip[dp].nlink + 1 < 0x1_0000
    requires f.ip[ip] == NoInode().(kind := 1, nlink := 1) && Abs(f.disk, f.ip)[ip] == T.Inode(T.T_DIR, 1, [])
    requires Traced(d0, lg0, f.disk, f.logged) && xs == {f.g.IBlock(ip), f.g.IBlock(dp)} && Spent(f.logged, lg0, xs, 0)
    modifies f`disk, f`ip, f`own, f`logged
    ensures Traced(d0, lg0, f.disk, f.logged)
    ensures ok ==> f.Valid() && AllValid(f.ip) && |f.ip| == |old(f.ip)| && f.ip[dp].kind == T.T_DIR
    ensures ok ==> Spent(f.logged, lg0, xs, 3) && f.ip[dp].size == old(f.ip[dp]).size
    ensures !ok ==> Full(f.g, f.disk)
    ensures ok ==> Abs(f.disk, f.ip) == Parented(old(Abs(f.disk, f.ip)), ip, dp)
  {
    hide Content, FsLayout.Owned, Synced, Abs, Node, Traced, Spent, OnlyDir, NoInode, Full;
    ghost var d, lg, s := f.disk, f.logged, Abs(f.disk, f.ip);
    AbsKind(f.disk, f.ip, dp);
    SetLinks(f, dp, f.ip[dp].nlink + 1);
    TracedMore(d0, lg0, d, lg, f.disk, f.logged);
    SpentInode(lg, lg0, xs, 0, f.g.IBlock(dp));
    ghost var d1, lg1, ds1 := f.disk, f.logged, f.ip;
    ok := Dots(f, ip, dp, xs, lg0, 0);
    TracedMore(d0, lg0, d1, lg1, f.disk, f.logged);
    if !ok { return; }
    OtherDir(ds1, f.ip, ip, dp);
  }

  ghost function Parented(s: seq<T.Inode>, ip: nat, dp: nat): seq<T.Inode>
    requires ip < |s| && dp < |s|
  {
    s[dp := s[dp].(nlink := s[dp].nlink + 1)][ip := T.Inode(T.T_DIR, 1, [T.Ent(ip, "."), T.Ent(dp, "..")])]
  }

  lemma EnterDone(s: seq<T.Inode>, h: seq<nat>, u: seq<T.Inode>, t: seq<T.Inode>, dp: nat, name: T.Name, kind: int,
                  ip: nat, d: int, k: nat)
    requires T.Inv(s, h) && 0 < dp < |s| && 0 < ip < |s| && ip != dp && s[ip].typ == 0 && s[dp].typ == T.T_DIR
    requires kind != 0
    requires forall i | 1 <= i < ip :: s[i].typ != 0
    requires !T.Taken(s[dp].ents, name) && Dir.Dirlinked(u, t, dp, name, ip, d, k)
    requires var v := s[ip := T.Inode(kind, 1, [])]; u == if kind == T.T_DIR then Parented(v, ip, dp) else v
    ensures Dir.Created(s, t, dp, name, kind, ip, k)
  {
    FreeNode(s, h, ip);
    hide T.Inv, T.Taken;
    if kind == T.T_DIR {
      assert t == T.Made(s, dp, k, name, ip);
    } else {
      assert t == T.Entered(s, dp, k, name, ip, kind);
    }
  }

  lemma FreeNode(s: seq<T.Inode>, h: seq<nat>, i: nat)
    requires T.Inv(s, h) && 0 < i < |s| && s[i].typ == 0
    ensures s[i].nlink == 0 && s[i].ents == []
  {
  }
}
