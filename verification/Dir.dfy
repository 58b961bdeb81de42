/** The directory calls of fs.c and sysfile.c over the inode table, each a whole system call after path lookup. */
module Dir {
  import opened DirTree

  class Inodes {
    const inode: array<Inode>
    ghost var depth: seq<nat>

    ghost predicate Valid()
      reads this, inode
    {
      Inv(inode[..], depth) && Hollow(inode[..])
    }

    /** mkfs: the root, alone. */
    constructor (n: nat)
      requires n >= 2
      ensures Valid() && fresh(inode) && inode.Length == n
      ensures forall i | 0 <= i < n ::
        inode[i] == if i == ROOT then Inode(T_DIR, 1, [Ent(ROOT, "."), Ent(ROOT, "..")]) else Inode(0, 0, [])
    {
      inode := new Inode[n](i => if i == ROOT then Inode(T_DIR, 1, [Ent(ROOT, "."), Ent(ROOT, "..")])
        else Inode(0, 0, []));
      depth := seq(n, _ => 0);
      new;
      RootAlone(inode[..], depth);
    }

    /** dirlookup: the entry in use with that name, inum 0 if there is none. */
    method Dirlookup(dp: nat, name: Name) returns (inum: nat, off: nat)
      requires dp < inode.Length && inode[dp].typ == T_DIR
      ensures inum != 0 ==> FirstNamed(inode[dp].ents, name, off) && inode[dp].ents[off] == Ent(inum, name)
      ensures inum == 0 <==> !Taken(inode[dp].ents, name)
      ensures inum == Find(inode[dp].ents, name)
    {
      off := 0;
      while off < |inode[dp].ents|
        invariant 0 <= off <= |inode[dp].ents|
        invariant forall k | 0 <= k < off :: inode[dp].ents[k].inum == 0 || inode[dp].ents[k].name != name
        invariant Find(inode[dp].ents, name) == Find(inode[dp].ents[off..], name)
      {
        if inode[dp].ents[off].inum != 0 && inode[dp].ents[off].name == name {
          return inode[dp].ents[off].inum, off;
        }
        off := off + 1;
      }
      return 0, off;
    }

    /** dirlink: the first unused slot, or the end; -1 when the name is there. */
    method Dirlink(dp: nat, name: Name, inum: nat) returns (r: int, ghost k: nat)
      requires dp < inode.Length && inode[dp].typ == T_DIR
      modifies inode
      ensures Dirlinked(old(inode[..]), inode[..], dp, name, inum, r, k)
    {
      var ip, o := Dirlookup(dp, name);
      k := 0;
      if ip != 0 {
        return -1, k;
      }
      ghost var s := inode[..];
      var off := 0;
      while off < |inode[dp].ents|
        invariant 0 <= off <= |inode[dp].ents|
        invariant forall j | 0 <= j < off :: inode[dp].ents[j].inum != 0
      {
        if inode[dp].ents[off].inum == 0 {
          break;
        }
        off := off + 1;
      }
      k := off;
      inode[dp] := inode[dp].(ents := Put(inode[dp].ents, off, Ent(inum, name)));
      assert inode[..] == s[dp := s[dp].(ents := Put(s[dp].ents, k, Ent(inum, name)))];
      return 0, k;
    }

    /** ialloc: the first free inode, 0 for the panic. */
    method Ialloc() returns (inum: nat)
      ensures inum < inode.Length || inum == 0
      ensures if inum == 0 then forall i | 1 <= i < inode.Length :: inode[i].typ != 0
              else inode[inum].typ == 0 && forall i | 1 <= i < inum :: inode[i].typ != 0
    {
      inum := 1;
      while inum < inode.Length
        invariant 1 <= inum && forall i | 1 <= i < inum && i < inode.Length :: inode[i].typ != 0
      {
        if inode[inum].typ == 0 {
          return;
        }
        inum := inum + 1;
      }
      return 0;
    }

    /** namex: 0 for failure; with `parent` also the last element. */
    method Namex(path: string, cwd: nat, parent: bool) returns (ip: nat, name: Name)
      requires 0 < cwd < inode.Length && ROOT < inode.Length
      requires forall d, k | 0 <= d < inode.Length && 0 <= k < |inode[d].ents| :: inode[d].ents[k].inum < inode.Length
      ensures var es, start := Elements(path), if path != [] && path[0] == '/' then ROOT else cwd;
        ip == Walk(inode[..], start, es, parent) && (parent && ip != 0 ==> es != [] && name == Short(es[|es| - 1]))
    {
      hide Resolve, Elements;
      name := "";
      ip := if path != [] && path[0] == '/' then ROOT else cwd;
      var p := path;
      ghost var es, start, n, s := Elements(path), ip, 0, inode[..];
      WalkStart(s, start, es);
      while true
        invariant 0 < ip < inode.Length && n <= |es| && Elements(p) == es[n..]
        invariant Resolve(s, start, es[..n]) == ip && (parent ==> n == 0 || n < |es|)
        decreases |p|
      {
        var ok, next, off;
        ok, name, p := Skipelem(p);
        if !ok {
          break;
        }
        ResolveStep(s, start, es, n);
        if inode[ip].typ != T_DIR {
          WalkFails(s, start, es, n, parent);
          return 0, name;
        }
        if parent && p == [] {
          return ip, name;
        }
        next, off := Dirlookup(ip, name);
        if next == 0 {
          WalkFails(s, start, es, n, parent);
          return 0, name;
        }
        ip := next;
        n := n + 1;
      }
      assert es[..n] == es;
      if parent {
        return 0, name;
      }
    }

    /** The invariants hold still, if the directory was linked or nothing has changed, and cannot hold otherwise. */
    twostate predicate KeptIff(dp: nat)
      requires dp < inode.Length
      reads this, inode
    {
      && (old(inode[dp].Linked()) || inode[..] == old(inode[..]) ==> Valid())
      && (!old(inode[dp].Linked()) && inode[..] != old(inode[..]) ==> forall g :: !Inv(inode[..], g))
    }

    /** create, which does not ask whether the directory has been removed. */
    method Create(dp: nat, name: Name, typ: int) returns (r: int, ghost k: nat)
      requires Valid() && 0 < dp < inode.Length && inode[dp].typ == T_DIR && typ != 0
      modifies inode, this`depth
      ensures Created(old(inode[..]), inode[..], dp, name, typ, r, k) && KeptIff(dp)
    {
      hide Inv, Taken, Made, Entered, FirstFree, Hollow;
      ghost var s := inode[..];
      k := 0;
      var ip, off := Dirlookup(dp, name);
      if ip != 0 {
        AnyEntryIn(s, depth, dp, off);
        k := off;
        if typ == T_FILE && inode[ip].typ == T_FILE {
          return ip, k;
        }
        return 0, k;
      }
      ip := Ialloc();
      if ip == 0 {
        return -1, k;
      }
      k := Fill(dp, name, typ, ip);
      return ip, k;
    }

    /** The part of create that makes something. */
    method Fill(dp: nat, name: Name, typ: int, ip: nat) returns (ghost k: nat)
      requires Valid() && 0 < dp < inode.Length && inode[dp].typ == T_DIR && typ != 0 && 0 < ip < inode.Length
      requires inode[ip].typ == 0
      requires !Taken(inode[dp].ents, name)
      modifies inode, this`depth
      ensures KeptIff(dp) && FirstFree(old(inode[dp].ents), k)
      ensures inode[..] == if typ == T_DIR then Made(old(inode[..]), dp, k, name, ip)
        else Entered(old(inode[..]), dp, k, name, ip, typ)
    {
      hide Inv, Taken, Made, Entered, FirstFree, Hollow;
      ghost var s := inode[..];
      FreeIs(s, depth, ip);
      inode[ip] := Inode(typ, 1, []);
      if typ == T_DIR {
        inode[dp] := inode[dp].(nlink := inode[dp].nlink + 1);
        Dots(ip, dp);
      }
      ghost var u := inode[..];
      assert u[dp].ents == s[dp].ents;
      var d;
      d, k := Dirlink(dp, name, ip);
      if typ == T_DIR {
        MadeBy(s, depth, dp, k, name, ip, u, inode[..]);
        if s[dp].Linked() {
          MadeHollow(s, dp, k, name, ip);
          depth := depth[ip := depth[dp] + 1];
        }
      } else {
        EnteredBy(s, depth, dp, k, name, ip, typ, u, inode[..]);
        if s[dp].Linked() { EnteredHollow(s, dp, k, name, ip, typ); }
      }
    }

    /** The two dirlinks into a new directory. */
    method Dots(ip: nat, dp: nat)
      requires 0 < ip < inode.Length && inode[ip] == Inode(T_DIR, 1, [])
      modifies inode
      ensures inode[..] == old(inode[..])[ip := Inode(T_DIR, 1, [Ent(ip, "."), Ent(dp, "..")])]
    {
      ghost var s := inode[..];
      var a, i := Dirlink(ip, ".", ip);
      assert inode[ip].ents == [Ent(ip, ".")];
      assert !Taken(inode[ip].ents, "..");
      ghost var t := inode[..];
      var b, j := Dirlink(ip, "..", dp);
      DotsPut(ip, dp, j);
      assert inode[..] == s[ip := Inode(T_DIR, 1, [Ent(ip, "."), Ent(dp, "..")])];
    }

    /** sys_link: one more name for a file, or everything as it was. */
    method Link(ip: nat, dp: nat, name: Name) returns (r: int, ghost k: nat)
      requires Valid() && 0 < ip < inode.Length && inode[ip].typ != 0 && 0 < dp < inode.Length && inode[dp].typ == T_DIR
      modifies inode
      ensures Linked(old(inode[..]), inode[..], ip, dp, name, r, k) && KeptIff(dp)
    {
      hide Inv, Taken, Entered, FirstFree, Hollow;
      ghost var s := inode[..];
      k := 0;
      if inode[ip].typ == T_DIR {
        return -1, k;
      }
      inode[ip] := inode[ip].(nlink := inode[ip].nlink + 1);
      ghost var u := inode[..];
      assert u[dp] == s[dp];
      var d;
      d, k := Dirlink(dp, name, ip);
      if d < 0 {
        inode[ip] := inode[ip].(nlink := inode[ip].nlink - 1);
        assert inode[..] == s;
        return -1, k;
      }
      EnteredBy(s, depth, dp, k, name, ip, s[ip].typ, u, inode[..]);
      if s[dp].Linked() { EnteredHollow(s, dp, k, name, ip, s[ip].typ); }
      return 0, k;
    }

    /** isdirempty */
    method Isdirempty(d: nat) returns (r: bool)
      requires d < inode.Length
      ensures r <==> Empty(inode[d].ents)
    {
      var off := 2;
      while off < |inode[d].ents|
        invariant 2 <= off && forall k | 2 <= k < off && k < |inode[d].ents| :: inode[d].ents[k].inum == 0
      {
        if inode[d].ents[off].inum != 0 {
          return false;
        }
        off := off + 1;
      }
      return true;
    }

    /** sys_unlink: a name goes, unless it is a dot, is not there, or names a directory in use. A directory that has
        been removed holds no name but its dots. */
    method Unlink(dp: nat, name: Name) returns (r: int, ghost k: nat)
      requires Valid() && 0 < dp < inode.Length && inode[dp].typ == T_DIR
      modifies inode
      ensures Valid() && Removed(old(inode[..]), inode[..], dp, name, r, k)
    {
      hide Inv, Unlinked, Taken, Removable, Hollow;
      ghost var s := inode[..];
      k := 0;
      if s[dp].Linked() { DotsFirst(s, depth, dp); } else { RemovedHolds(s, dp, name); }
      if name == "." || name == ".." {
        return -1, k;
      }
      var ip, off := Dirlookup(dp, name);
      if ip == 0 {
        NotThere(s, dp, name);
        return -1, k;
      }
      EntryIn(s, depth, dp, off);
      if inode[ip].typ == T_DIR {
        var empty := Isdirempty(ip);
        if !empty {
          InUse(s, depth, dp, off, name);
          return -1, k;
        }
      }
      k := off;
      Erase(dp, name, ip, off);
      return 0, k;
    }

    /** The stores of sys_unlink. */
    method Erase(dp: nat, name: Name, ip: nat, off: nat)
      requires Valid() && 0 < dp < inode.Length && inode[dp].Linked() && 2 <= off < |inode[dp].ents| && ip != 0
      requires inode[dp].ents[off] == Ent(ip, name) && ip < inode.Length
      requires inode[ip].typ == T_DIR ==> Empty(inode[ip].ents)
      modifies inode
      ensures Valid() && Removed(old(inode[..]), inode[..], dp, name, 0, off)
    {
      hide Inv, Empty;
      ghost var s := inode[..];
      UnlinkTarget(s, depth, dp, off);
      inode[dp] := inode[dp].(ents := inode[dp].ents[off := BLANK]);
      if inode[ip].typ == T_DIR {
        inode[dp] := inode[dp].(nlink := inode[dp].nlink - 1);
      }
      inode[ip] := inode[ip].(nlink := inode[ip].nlink - 1);
      assert inode[..] == Unlinked(s, dp, off);
      UnlinkKeeps(s, depth, dp, off);
      UnlinkHollow(s, depth, dp, off);
    }

    /** iput of the last reference: an inode without links is freed. */
    method Iput(ip: nat)
      requires Valid() && 0 < ip < inode.Length
      modifies inode
      ensures Valid()
      ensures inode[..] == if old(inode[ip]).nlink == 0 then old(inode[..])[ip := Inode(0, 0, [])] else old(inode[..])
    {
      ghost var s := inode[..];
      if inode[ip].nlink == 0 {
        FreeKeeps(s, depth, ip);
        hide Inv;
        inode[ip] := Inode(0, 0, []);
        assert inode[..] == s[ip := Inode(0, 0, [])];
      }
    }
  }

  /** What dirlink does: -1 and nothing when the name is taken, else the entry in the first unused slot or at the
      end. */
  ghost predicate Dirlinked(s: seq<Inode>, t: seq<Inode>, dp: nat, name: Name, inum: nat, r: int, k: nat) {
    && dp < |s|
    && if Taken(s[dp].ents, name) then r == -1 && t == s
       else r == 0 && FirstFree(s[dp].ents, k) && t == s[dp := s[dp].(ents := Put(s[dp].ents, k, Ent(inum, name)))]
  }

  /** What create does: a file of that name, if a file is wanted; 0 when the name is otherwise in use; -1, ialloc's
      panic,
      without a free inode; or the first free inode with its entry and, for a directory, its dots. */
  ghost predicate Created(s: seq<Inode>, t: seq<Inode>, dp: nat, name: Name, typ: int, r: int, k: nat) {
    && dp < |s| && -1 <= r < |s|
    && if Taken(s[dp].ents, name) then
         t == s && FirstNamed(s[dp].ents, name, k)
         && r == if typ == T_FILE && HasType(s, s[dp].ents[k].inum, T_FILE) then s[dp].ents[k].inum else 0
       else if r <= 0 then r == -1 && t == s && forall i | 1 <= i < |s| :: s[i].typ != 0
       else s[r].typ == 0 && (forall i | 1 <= i < r :: s[i].typ != 0) && FirstFree(s[dp].ents, k)
            && t == if typ == T_DIR then Made(s, dp, k, name, r) else Entered(s, dp, k, name, r, typ)
  }

  /** Entry k is the first in use with that name. */
  ghost predicate FirstNamed(ents: seq<Ent>, name: Name, k: nat) {
    && k < |ents| && ents[k].inum != 0 && ents[k].name == name
    && forall j | 0 <= j < k :: ents[j].inum == 0 || ents[j].name != name
  }

  predicate HasType(s: seq<Inode>, i: nat, typ: int) { i < |s| && s[i].typ == typ }

  /** What sys_link does once both paths are found. */
  ghost predicate Linked(s: seq<Inode>, t: seq<Inode>, ip: nat, dp: nat, name: Name, r: int, k: nat) {
    && dp < |s| && ip < |s|
    && if s[ip].typ == T_DIR || Taken(s[dp].ents, name) then r == -1 && t == s
       else r == 0 && FirstFree(s[dp].ents, k) && t == Entered(s, dp, k, name, ip, s[ip].typ)
  }

  /** What sys_unlink does once the directory is found. */
  ghost predicate Removed(s: seq<Inode>, t: seq<Inode>, dp: nat, name: Name, r: int, k: nat) {
    if r == 0 then Removable(s, dp, k, name) && s[dp].ents[k].inum != dp && t == Unlinked(s, dp, k)
    else r == -1 && t == s && forall j: nat :: !Removable(s, dp, j, name)
  }

  /** The slot dirlink fills. */
  ghost predicate FirstFree(ents: seq<Ent>, k: nat) {
    k <= |ents| && (k < |ents| ==> ents[k].inum == 0) && forall j | 0 <= j < k :: ents[j].inum != 0
  }

  /** Entry k is the one sys_unlink removes for that name. */
  ghost predicate Removable(s: seq<Inode>, dp: nat, k: nat, name: Name) {
    CanUnlink(s, dp, k) && s[dp].ents[k].name == name
  }

  /** A directory that has been removed but is still held has nothing left but its dots. */
  ghost predicate Hollow(s: seq<Inode>) {
    forall d | 0 < d < |s| && s[d].typ == T_DIR && !s[d].Linked() ::
      OnlyDots(s[d].ents) && s[d].ents[0].inum < |s| && s[d].ents[1].inum < |s|
  }

  predicate OnlyDots(ents: seq<Ent>) {
    |ents| >= 2 && ents[0].name == "." && ents[1].name == ".." && Empty(ents)
  }

  lemma MadeHollow(s: seq<Inode>, dp: nat, k: nat, name: Name, ip: nat)
    requires Hollow(s) && dp < |s| && s[dp].Linked() && ip < |s| && FirstFree(s[dp].ents, k)
    ensures Hollow(Made(s, dp, k, name, ip))
  {
  }

  lemma EnteredHollow(s: seq<Inode>, dp: nat, k: nat, name: Name, ip: nat, typ: int)
    requires Hollow(s) && dp < |s| && s[dp].Linked() && ip < |s| && FirstFree(s[dp].ents, k) && typ != T_DIR
    ensures Hollow(Entered(s, dp, k, name, ip, typ))
  {
  }

  lemma UnlinkHollow(s: seq<Inode>, h: seq<nat>, dp: nat, k: nat)
    requires Inv(s, h) && Hollow(s) && CanUnlink(s, dp, k) && s[dp].ents[k].inum != dp
    ensures Hollow(Unlinked(s, dp, k))
  {
    hide Inv, Placed, Formed, Hollow;
    var ip := s[dp].ents[k].inum;
    UnlinkTarget(s, h, dp, k);
    UnlinkParent(s, h, dp, k);
    if s[ip].typ == T_DIR { DotNames(s, ip); }
    HollowStep(s, Unlinked(s, dp, k), dp, ip);
  }

  lemma HollowStep(s: seq<Inode>, t: seq<Inode>, dp: nat, ip: nat)
    requires Hollow(s) && |t| == |s| && dp < |s| && ip < |s| && t[dp].Linked()
    requires t[ip].typ == T_DIR ==> OnlyDots(t[ip].ents) && t[ip].ents[0].inum < |t| && t[ip].ents[1].inum < |t|
    requires forall d | 0 <= d < |s| && d != dp && d != ip :: t[d] == s[d]
    ensures Hollow(t)
  {
  }

  lemma DotNames(s: seq<Inode>, d: nat)
    requires d < |s| && Formed(s, d)
    ensures |s[d].ents| >= 2 && s[d].ents[0].name == "." && s[d].ents[1].name == ".."
    ensures s[d].ents[0].inum < |s| && s[d].ents[1].inum < |s|
  {
  }

  /** A directory stays linked when a name in it goes: its own place is elsewhere. */
  lemma UnlinkParent(s: seq<Inode>, h: seq<nat>, dp: nat, k: nat)
    requires Inv(s, h) && CanUnlink(s, dp, k) && s[dp].ents[k].inum != dp
    ensures Unlinked(s, dp, k)[dp].Linked()
  {
    var t, ip := Unlinked(s, dp, k), s[dp].ents[k].inum;
    UnlinkTarget(s, h, dp, k);
    UnlinkKeeps(s, h, dp, k);
    RootLinked(t, h);
    if dp != ROOT {
      var p, j := PlaceOf(s, h, dp);
      EmptyHolds(s, dp, k, p, j);
      StillNamed(t, h, dp, p, j);
      hide Inv, Placed, Formed, CanUnlink;
    }
  }

  lemma RootLinked(s: seq<Inode>, h: seq<nat>)
    requires Inv(s, h)
    ensures ROOT < |s| && s[ROOT].Linked()
  {
  }

  lemma PlaceOf(s: seq<Inode>, h: seq<nat>, d: nat) returns (p: nat, j: nat)
    requires Inv(s, h) && d < |s| && s[d].Linked() && d != ROOT
    ensures p != d && Holds(s, p, j, d)
  {
    FormedAt(s, h, d);
    hide Inv, Formed;
    p := s[d].ents[1].inum;
    j :| Holds(s, p, j, d);
  }

  /** An empty directory is nobody's place, so unlinking it leaves other places alone. */
  lemma EmptyHolds(s: seq<Inode>, dp: nat, k: nat, p: nat, j: nat)
    requires CanUnlink(s, dp, k) && s[dp].ents[k].inum != dp && Holds(s, p, j, dp) && p != dp
    ensures Unlinked(s, dp, k)[dp].typ == T_DIR && Holds(Unlinked(s, dp, k), p, j, dp)
  {
    assert p != s[dp].ents[k].inum;
  }

  lemma StillNamed(t: seq<Inode>, h: seq<nat>, d: nat, p: nat, j: nat)
    requires Inv(t, h) && 0 < d < |t| && t[d].typ == T_DIR && Holds(t, p, j, d)
    ensures t[d].Linked()
  {
    FormedAt(t, h, p);
    assert Names(t[p].ents[j], d);
    CountNone(t, d);
    hide Formed, Placed, Above;
  }

  lemma RemovedHolds(s: seq<Inode>, dp: nat, name: Name)
    requires Hollow(s) && 0 < dp < |s| && s[dp].typ == T_DIR && !s[dp].Linked()
    ensures forall k: nat :: !Removable(s, dp, k, name)
    ensures name != "." && name != ".." ==> !Taken(s[dp].ents, name)
  {
    assert OnlyDots(s[dp].ents);
    hide Hollow;
  }

  lemma RootAlone(s: seq<Inode>, h: seq<nat>)
    requires |s| == |h| >= 2 && s[ROOT] == Inode(T_DIR, 1, [Ent(ROOT, "."), Ent(ROOT, "..")])
    requires forall i | 0 <= i < |s| && i != ROOT :: s[i] == Inode(0, 0, [])
    ensures Inv(s, h)
  {
    var t := s[ROOT := Inode(0, 0, [])];
    forall i | 0 < i < |s| ensures Count(s, i) == if i == ROOT then 1 else 0 {
      CountSet(t, ROOT, s[ROOT], i);
      assert t[ROOT := s[ROOT]] == s;
      CountNone(t, i);
      InDots(ROOT, ROOT, i);
    }
  }

  lemma MadeBy(s: seq<Inode>, h: seq<nat>, dp: nat, k: nat, name: Name, ip: nat, u: seq<Inode>, t: seq<Inode>)
    requires Inv(s, h) && 0 < dp < |s| && s[dp].typ == T_DIR && 0 < ip < |s| && s[ip].typ == 0
    requires !Taken(s[dp].ents, name)
    requires u == s[ip := Inode(T_DIR, 1, [Ent(ip, "."), Ent(dp, "..")])][dp := s[dp].(nlink := s[dp].nlink + 1)]
    requires Dirlinked(u, t, dp, name, ip, 0, k)
    ensures FirstFree(s[dp].ents, k) && t == Made(s, dp, k, name, ip)
    ensures s[dp].Linked() ==> |h| == |s| && Inv(t, h[ip := h[dp] + 1])
    ensures !s[dp].Linked() ==> forall g :: !Inv(t, g)
    ensures t != s
  {
    hide Inv, Taken;
    MakeKeepsIff(s, h, dp, k, name, ip);
    assert t[ip].typ == T_DIR;
  }

  lemma EnteredBy(s: seq<Inode>, h: seq<nat>, dp: nat, k: nat, name: Name, ip: nat, typ: int, u: seq<Inode>,
                  t: seq<Inode>)
    requires Inv(s, h) && 0 < dp < |s| && s[dp].typ == T_DIR && 0 < ip < |s| && typ != T_DIR && typ != 0
    requires s[ip].typ == 0 || s[ip].typ == typ
    requires u == s[ip := Inode(typ, s[ip].nlink + 1, s[ip].ents)] && Dirlinked(u, t, dp, name, ip, 0, k)
    ensures FirstFree(s[dp].ents, k) && t == Entered(s, dp, k, name, ip, typ)
    ensures s[dp].Linked() ==> Inv(t, h)
    ensures !s[dp].Linked() ==> forall g :: !Inv(t, g)
    ensures t != s
  {
    hide Inv, Taken;
    EnterKeepsIff(s, h, dp, k, name, ip, typ);
    assert t[ip].nlink == s[ip].nlink + 1;
  }

  /** What an entry names is an inode, in a removed directory too. */
  lemma AnyEntryIn(s: seq<Inode>, h: seq<nat>, dp: nat, k: nat)
    requires Inv(s, h) && Hollow(s) && 0 < dp < |s| && s[dp].typ == T_DIR && k < |s[dp].ents| && s[dp].ents[k].inum != 0
    ensures s[dp].ents[k].inum < |s|
  {
    if s[dp].Linked() { EntryIn(s, h, dp, k); }
    hide Inv;
  }

  lemma NotThere(s: seq<Inode>, dp: nat, name: Name)
    requires dp < |s| && !Taken(s[dp].ents, name)
    ensures forall k: nat :: !Removable(s, dp, k, name)
  {
  }

  /** A directory with entries is not removed, by whatever slot. */
  lemma InUse(s: seq<Inode>, h: seq<nat>, dp: nat, off: nat, name: Name)
    requires Inv(s, h) && 0 < dp < |s| && s[dp].Linked() && 2 <= off < |s[dp].ents| && s[dp].ents[off].inum != 0
    requires s[dp].ents[off].name == name && s[dp].ents[off].inum < |s|
    requires s[s[dp].ents[off].inum].typ == T_DIR && !Empty(s[s[dp].ents[off].inum].ents)
    ensures forall k: nat :: !Removable(s, dp, k, name)
  {
    NameOnce(s, h, dp, off, name);
    hide Inv, Empty;
  }

  lemma EntryIn(s: seq<Inode>, h: seq<nat>, dp: nat, k: nat)
    requires Inv(s, h) && 0 < dp < |s| && s[dp].Linked() && k < |s[dp].ents| && s[dp].ents[k].inum != 0
    ensures s[dp].ents[k].inum < |s|
    ensures s[dp].ents[k].name != "." && s[dp].ents[k].name != ".." ==> k >= 2
  {
    hide Inv, Placed, Above;
    FormedAt(s, h, dp);
    if k == 0 { assert s[dp].ents[0] == Ent(dp, "."); }
    if k == 1 { DotDot(s, dp); }
  }

  lemma FreeIs(s: seq<Inode>, h: seq<nat>, i: nat)
    requires Inv(s, h) && 0 < i < |s| && s[i].typ == 0
    ensures s[i] == Inode(0, 0, [])
  {
    hide Formed, Placed, Above;
  }

  lemma DotsPut(ip: nat, dp: nat, j: nat)
    requires FirstFree([Ent(ip, ".")], j) && ip != 0
    ensures Put([Ent(ip, ".")], j, Ent(dp, "..")) == [Ent(ip, "."), Ent(dp, "..")]
  {
    assert [Ent(ip, ".")][0].inum == ip;
  }

  lemma DotsFirst(s: seq<Inode>, h: seq<nat>, dp: nat)
    requires Inv(s, h) && 0 < dp < |s| && s[dp].Linked()
    ensures forall k: nat :: !Removable(s, dp, k, ".") && !Removable(s, dp, k, "..")
  {
    hide Inv, Placed, Above;
    FormedAt(s, h, dp);
  }

  lemma NameOnce(s: seq<Inode>, h: seq<nat>, dp: nat, off: nat, name: Name)
    requires Inv(s, h) && 0 < dp < |s| && s[dp].Linked() && 2 <= off < |s[dp].ents| && s[dp].ents[off].inum != 0
    requires s[dp].ents[off].name == name
    ensures forall k: nat | Removable(s, dp, k, name) :: k == off
  {
    hide Inv, Placed, Above;
    FormedAt(s, h, dp);
  }

  lemma UnlinkKeeps(s: seq<Inode>, h: seq<nat>, dp: nat, k: nat)
    requires Inv(s, h) && CanUnlink(s, dp, k) && s[dp].ents[k].inum != dp
    ensures Inv(Unlinked(s, dp, k), h)
  {
    hide Inv;
    if s[s[dp].ents[k].inum].typ == T_DIR {
      UnlinkDirKeeps(s, h, dp, k);
    } else {
      UnlinkFileKeeps(s, h, dp, k);
    }
  }

  /** The inode of the first entry in use with that name, 0 if there is none. */
  function Find(ents: seq<Ent>, name: Name): nat {
    if ents == [] then 0 else if ents[0].inum != 0 && ents[0].name == name then ents[0].inum else Find(ents[1..], name)
  }

  /** A directory is made and removed while somebody still holds it, and something is created in it. */
  method CreateInRemoved(typ: int) returns (x: Inodes, d: int, r: int)
    requires typ != 0
    ensures fresh(x) && 0 < d < x.inode.Length && r > 0 && forall g :: !Inv(x.inode[..], g)
  {
    hide Inv, Hollow;
    x := new Inodes(4);
    ghost var s := x.inode[..];
    ghost var k;
    d, k := x.Create(ROOT, "d", T_DIR);
    ghost var t := x.inode[..];
    FirstMade(s, t, d, k);
    var u;
    u, k := x.Unlink(ROOT, "d");
    ghost var v := x.inode[..];
    Gone(s, t, d, v, u, k);
    r, k := x.Create(d, "e", typ);
    SecondMade(v, x.inode[..], d, typ, r, k);
  }

  lemma FirstMade(s: seq<Inode>, t: seq<Inode>, d: int, k: nat)
    requires |s| == 4 && s[1] == Inode(T_DIR, 1, [Ent(ROOT, "."), Ent(ROOT, "..")]) && s[2] == s[3] == Inode(0, 0, [])
    requires Created(s, t, ROOT, "d", T_DIR, d, k)
    ensures 2 <= d <= 3 && k == 2 && t == Made(s, ROOT, 2, "d", d)
    ensures t[ROOT].ents == [Ent(ROOT, "."), Ent(ROOT, ".."), Ent(d, "d")] && t[ROOT].nlink == 2
    ensures t[d] == Inode(T_DIR, 1, [Ent(d, "."), Ent(ROOT, "..")]) && t[5 - d] == Inode(0, 0, [])
  {
    assert s[1].ents[0].inum != 0 && s[1].ents[1].inum != 0;
  }

  lemma Gone(s: seq<Inode>, t: seq<Inode>, d: int, v: seq<Inode>, u: int, k: nat)
    requires |t| == 4 && 2 <= d <= 3 && t[ROOT] == Inode(T_DIR, 2, [Ent(ROOT, "."), Ent(ROOT, ".."), Ent(d, "d")])
    requires t[d] == Inode(T_DIR, 1, [Ent(d, "."), Ent(ROOT, "..")]) && t[5 - d] == Inode(0, 0, [])
    requires Removed(t, v, ROOT, "d", u, k)
    ensures |v| == 4 && v[d] == Inode(T_DIR, 0, [Ent(d, "."), Ent(ROOT, "..")]) && v[5 - d] == Inode(0, 0, [])
  {
    assert Removable(t, ROOT, 2, "d");
    assert t[ROOT].ents[0].name != "d" && t[ROOT].ents[1].name != "d";
  }

  lemma SecondMade(v: seq<Inode>, w: seq<Inode>, d: int, typ: int, r: int, k: nat)
    requires |v| == 4 && 2 <= d <= 3 && v[d] == Inode(T_DIR, 0, [Ent(d, "."), Ent(ROOT, "..")])
    requires v[5 - d] == Inode(0, 0, [])
    requires typ != 0 && Created(v, w, d, "e", typ, r, k)
    ensures r > 0 && w != v
  {
    assert v[d].ents[0].name != "e" && v[d].ents[1].name != "e";
    assert v[r].typ == 0 ==> r > 0 ==> w[r].typ == typ;
  }

  // Paths.

  /** The elements of a path: its stretches without slashes. */
  function Elements(path: string): seq<string>
    decreases |path|
  {
    if path == [] then []
    else if path[0] == '/' then Elements(path[1..])
    else [path[..Run(path)]] + Elements(path[Run(path)..])
  }

  /** How many characters come before the first slash. */
  function Run(path: string): (n: nat)
    ensures n <= |path| && (forall k | 0 <= k < n :: path[k] != '/') && (n < |path| ==> path[n] == '/')
  {
    if path == [] || path[0] == '/' then 0 else 1 + Run(path[1..])
  }

  lemma {:induction false} RunIs(path: string, n: nat)
    requires n <= |path| && (forall k | 0 <= k < n :: path[k] != '/') && (n < |path| ==> path[n] == '/')
    ensures Run(path) == n
  {
  }

  /** A name as skipelem copies it: at most DIRSIZ characters. */
  function Short(e: string): Name {
    if |e| >= DIRSIZ then e[..DIRSIZ] else e
  }

  lemma {:induction false} SlashesSkip(path: string, n: nat)
    requires n <= |path| && forall k | 0 <= k < n :: path[k] == '/'
    ensures Elements(path) == Elements(path[n..])
    decreases n
  {
    if n > 0 {
      SlashesSkip(path[1..], n - 1);
      assert path[1..][n - 1..] == path[n..];
    } else {
      assert path[0..] == path;
    }
  }

  /** Any path with at least one slash before each element reads back as its elements. */
  lemma {:induction false} ElementsJoin(es: seq<string>)
    requires forall e | e in es :: e != [] && '/' !in e
    ensures Elements(Joined(es)) == es
    decreases |es|
  {
    if es != [] {
      assert forall e | e in es[1..] :: e in es;
      ElementsJoin(es[1..]);
      JoinedHead(es[1..]);
      assert es[0] in es;
      ElementFirst(es[0], Joined(es[1..]));
    }
  }

  lemma ElementFirst(e: string, rest: string)
    requires e != [] && '/' !in e && (rest != [] ==> rest[0] == '/')
    ensures Elements("/" + e + rest) == [e] + Elements(rest)
  {
    var p, q := e + rest, "/" + e + rest;
    assert q[1..] == p;
    forall k | 0 <= k < |e| ensures p[k] != '/' { assert e[k] in e; }
    assert rest != [] ==> p[|e|] == rest[0];
    RunIs(p, |e|);
    assert p[..|e|] == e && p[|e|..] == rest;
    hide Run;
  }

  lemma JoinedHead(es: seq<string>)
    ensures Joined(es) != [] ==> Joined(es)[0] == '/'
  {
  }

  function Joined(es: seq<string>): string {
    if es == [] then [] else "/" + es[0] + Joined(es[1..])
  }

  /** skipelem: the first element, shortened, and the path from the next element on; or no element. */
  method Skipelem(path: string) returns (ok: bool, name: Name, rest: string)
    ensures ok <==> Elements(path) != []
    ensures ok ==> name == Short(Elements(path)[0]) && Elements(rest) == Elements(path)[1..] && |rest| < |path|
    ensures ok ==> (rest == [] <==> |Elements(path)| == 1)
  {
    hide Run;
    var s := SkipSlashes(path, 0);
    assert path[0..] == path;
    if s == |path| {
      return false, "", "";
    }
    var i := s;
    while i < |path| && path[i] != '/'
      invariant s <= i <= |path| && forall k | s <= k < i :: path[k] != '/'
    {
      i := i + 1;
    }
    ok, name := true, Short(path[s..i]);
    FirstElement(path, s, i);
    i := SkipSlashes(path, i);
    rest := path[i..];
  }

  method SkipSlashes(path: string, i: nat) returns (j: nat)
    requires i <= |path|
    ensures i <= j <= |path| && (j < |path| ==> path[j] != '/') && Elements(path[i..]) == Elements(path[j..])
  {
    j := i;
    while j < |path| && path[j] == '/'
      invariant i <= j <= |path| && forall k | i <= k < j :: path[k] == '/'
    {
      j := j + 1;
    }
    SlashesSkip(path[i..], j - i);
    assert path[i..][j - i..] == path[j..];
  }

  lemma FirstElement(path: string, s: nat, i: nat)
    requires s < i <= |path| && (forall k | s <= k < i :: path[k] != '/') && (i < |path| ==> path[i] == '/')
    ensures Elements(path[s..]) == [path[s..i]] + Elements(path[i..])
  {
    var p := path[s..];
    RunIs(p, i - s);
    assert p[..i - s] == path[s..i] && p[i - s..] == path[i..];
  }

  /** Where a list of names leads from inode i, 0 if nowhere; a name is looked up only in a directory. */
  function Resolve(s: seq<Inode>, i: nat, es: seq<string>): nat
    decreases |es|
  {
    if es == [] || i == 0 || i >= |s| then i
    else if s[i].typ != T_DIR then 0
    else Resolve(s, Find(s[i].ents, Short(es[0])), es[1..])
  }

  lemma {:induction false} ResolveNone(s: seq<Inode>, es: seq<string>)
    ensures Resolve(s, 0, es) == 0
  {
  }

  lemma {:induction false} ResolveSplit(s: seq<Inode>, i: nat, a: seq<string>, b: seq<string>)
    ensures Resolve(s, i, a + b) == Resolve(s, Resolve(s, i, a), b)
    decreases |a|
  {
    if a == [] {
      assert a + b == b;
    } else if i == 0 || i >= |s| {
    } else if s[i].typ == T_DIR {
      ResolveSplit(s, Find(s[i].ents, Short(a[0])), a[1..], b);
      assert (a + b)[1..] == a[1..] + b;
    } else {
      ResolveNone(s, b);
    }
  }

  lemma ResolveStep(s: seq<Inode>, i: nat, es: seq<string>, n: nat)
    requires n < |es| && 0 < Resolve(s, i, es[..n]) < |s|
    ensures var d := Resolve(s, i, es[..n]);
            Resolve(s, i, es[..n + 1]) == if s[d].typ == T_DIR then Find(s[d].ents, Short(es[n])) else 0
  {
    assert es[..n + 1] == es[..n] + [es[n]];
    ResolveSplit(s, i, es[..n], [es[n]]);
    assert [es[n]][1..] == [];
  }

  /** A walk that fails on the way fails. */
  lemma ResolveFails(s: seq<Inode>, i: nat, es: seq<string>, n: nat)
    requires n <= |es| && Resolve(s, i, es[..n]) == 0
    ensures forall m | n <= m <= |es| :: Resolve(s, i, es[..m]) == 0
  {
    forall m | n <= m <= |es| ensures Resolve(s, i, es[..m]) == 0 {
      assert es[..m] == es[..n] + es[n..m];
      ResolveSplit(s, i, es[..n], es[n..m]);
      ResolveNone(s, es[n..m]);
    }
  }

  lemma WalkStart(s: seq<Inode>, start: nat, es: seq<string>)
    ensures es[..0] == [] && es[0..] == es && Resolve(s, start, es[..0]) == start
  {
  }

  /** The walk stops at an inode that is no directory, or lacks the name. */
  lemma WalkFails(s: seq<Inode>, start: nat, es: seq<string>, n: nat, parent: bool)
    requires n < |es| && 0 < Resolve(s, start, es[..n]) < |s| && Resolve(s, start, es[..n + 1]) == 0
    requires parent ==> n + 1 < |es| || s[Resolve(s, start, es[..n])].typ != T_DIR
    ensures Walk(s, start, es, parent) == 0
  {
    ResolveFails(s, start, es, n + 1);
    assert es[..|es|] == es;
    hide Resolve;
    if parent && n + 1 == |es| {
      assert es[..|es| - 1] == es[..n];
    }
  }

  /** What namex finds: the inode of a path, or with `parent` the directory its last element would be in. */
  function Walk(s: seq<Inode>, start: nat, es: seq<string>, parent: bool): nat {
    if !parent then Resolve(s, start, es)
    else if es == [] then 0
    else var d := Resolve(s, start, es[..|es| - 1]); if 0 < d < |s| && s[d].typ == T_DIR then d else 0
  }

  /** namei is nameiparent and a lookup of the last name; and there is a parent wherever there is a file. */
  lemma ParentThenName(s: seq<Inode>, start: nat, es: seq<string>)
    requires es != []
    ensures var dp := Walk(s, start, es, true);
      && (dp != 0 ==> dp < |s| && s[dp].typ == T_DIR
                      && Walk(s, start, es, false) == Find(s[dp].ents, Short(es[|es| - 1])))
      && (0 < Walk(s, start, es, false) < |s| && 0 < start < |s| && Walled(s) ==> dp != 0)
    ensures |es| == 1 && 0 < start < |s| && s[start].typ == T_DIR ==> Walk(s, start, es, true) == start
  {
    var n := |es| - 1;
    var d := Resolve(s, start, es[..n]);
    assert es[..n] + [es[n]] == es && [es[n]][1..] == [];
    ResolveSplit(s, start, es[..n], [es[n]]);
    if start < |s| { ResolveWalled(s, start, es[..n]); }
  }

  /** Entries name inodes. */
  ghost predicate Walled(s: seq<Inode>) {
    forall d, k | 0 <= d < |s| && 0 <= k < |s[d].ents| :: s[d].ents[k].inum < |s|
  }

  lemma {:induction false} ResolveWalled(s: seq<Inode>, i: nat, es: seq<string>)
    requires i < |s|
    ensures Walled(s) ==> Resolve(s, i, es) < |s|
    decreases |es|
  {
    if es != [] && i != 0 && s[i].typ == T_DIR && Walled(s) {
      FindWalled(s[i].ents, Short(es[0]), |s|);
      ResolveWalled(s, Find(s[i].ents, Short(es[0])), es[1..]);
    }
  }

  lemma {:induction false} FindWalled(ents: seq<Ent>, name: Name, n: nat)
    requires n > 0 && forall k | 0 <= k < |ents| :: ents[k].inum < n
    ensures Find(ents, name) < n
  {
    if ents != [] { FindWalled(ents[1..], name, n); }
  }

  /** The inode of the first entry of that name. */
  lemma {:induction false} FindFirst(ents: seq<Ent>, name: Name, k: nat)
    requires FirstNamed(ents, name, k)
    ensures Find(ents, name) == ents[k].inum
  {
    if k > 0 {
      assert forall j | 0 <= j < k - 1 :: ents[1..][j] == ents[j + 1];
      FindFirst(ents[1..], name, k - 1);
    }
  }
}
