/** Directories as sysfile.c leaves them after each system call: entries, link counts, and the tree they form. */
module DirTree {
  const DIRSIZ: nat := 14
  const ROOT: nat := 1             // ROOTINO
  const T_DIR: int := 1
  const T_FILE: int := 2

  /** A name as a directory entry stores it, at most DIRSIZ characters. */
  type Name = s: string | |s| <= DIRSIZ witness ""

  /** inum 0 marks an unused entry. */
  datatype Ent = Ent(inum: nat, name: Name)

  /** typ 0 marks a free inode; ents is a directory's content. */
  datatype Inode = Inode(typ: int, nlink: int, ents: seq<Ent>) {
    predicate Linked() { typ == T_DIR && nlink > 0 }
  }

  /** An entry that counts as a link to i. */
  predicate Names(e: Ent, i: nat) { e.inum == i && e.name != "." }

  /** How many of the entries are links to i. */
  function In(ents: seq<Ent>, i: nat): nat
    decreases |ents|
  {
    if ents == [] then 0 else In(ents[..|ents| - 1], i) + if Names(ents[|ents| - 1], i) then 1 else 0
  }

  /** What one inode contributes. */
  function Weight(x: Inode, i: nat): nat {
    if x.Linked() then In(x.ents, i) else 0
  }

  /** How many entries of linked directories are links to i. */
  function Count(s: seq<Inode>, i: nat): nat
    decreases |s|
  {
    if s == [] then 0 else Count(s[..|s| - 1], i) + Weight(s[|s| - 1], i)
  }

  lemma {:induction false} InSet(ents: seq<Ent>, k: nat, e: Ent, i: nat)
    requires k < |ents|
    ensures In(ents[k := e], i) == In(ents, i) - (if Names(ents[k], i) then 1 else 0) + (if Names(e, i) then 1 else 0)
    decreases |ents|
  {
    var t, n := ents[k := e], |ents| - 1;
    if k < n {
      assert t[..n] == ents[..n][k := e];
      InSet(ents[..n], k, e, i);
    } else {
      assert t[..n] == ents[..n];
    }
  }

  lemma InPush(ents: seq<Ent>, e: Ent, i: nat)
    ensures In(ents + [e], i) == In(ents, i) + if Names(e, i) then 1 else 0
  {
    assert (ents + [e])[..|ents|] == ents;
  }

  lemma {:induction false} InNone(ents: seq<Ent>, i: nat)
    ensures In(ents, i) == 0 <==> forall k | 0 <= k < |ents| :: !Names(ents[k], i)
    decreases |ents|
  {
    if ents != [] {
      InNone(ents[..|ents| - 1], i);
      assert forall k | 0 <= k < |ents| - 1 :: ents[..|ents| - 1][k] == ents[k];
    }
  }

  lemma {:induction false} CountSet(s: seq<Inode>, d: nat, x: Inode, i: nat)
    requires d < |s|
    ensures Count(s[d := x], i) == Count(s, i) - Weight(s[d], i) + Weight(x, i)
    decreases |s|
  {
    var t, n := s[d := x], |s| - 1;
    if d < n {
      assert t[..n] == s[..n][d := x];
      CountSet(s[..n], d, x, i);
    } else {
      assert t[..n] == s[..n];
    }
  }

  lemma {:induction false} CountNone(s: seq<Inode>, i: nat)
    ensures Count(s, i) == 0 <==>
      forall d, k | 0 <= d < |s| && s[d].Linked() && 0 <= k < |s[d].ents| :: !Names(s[d].ents[k], i)
    decreases |s|
  {
    if s != [] {
      var n := |s| - 1;
      CountNone(s[..n], i);
      InNone(s[n].ents, i);
      assert forall d | 0 <= d < n :: s[..n][d] == s[d];
    }
  }

  /** Every inode's link count is right, and a free one has none. */
  ghost predicate Counted(s: seq<Inode>) {
    forall i | 0 < i < |s| :: s[i].nlink == Count(s, i) && (s[i].typ == 0 ==> s[i].nlink == 0 && s[i].ents == [])
  }

  /** A linked directory starts with its dots, the second naming a linked directory, and repeats no name. */
  ghost predicate Formed(s: seq<Inode>, d: nat)
    requires d < |s|
  {
    var e := s[d].ents;
    && |e| >= 2 && e[0] == Ent(d, ".") && e[1].name == ".." && 0 < e[1].inum < |s| && s[e[1].inum].Linked()
    && (forall k | 2 <= k < |e| && e[k].inum != 0 :: e[k].inum < |s| && e[k].name != "." && e[k].name != "..")
    && (forall k, l | 2 <= k < l < |e| && e[k].inum != 0 && e[l].inum != 0 :: e[k].name != e[l].name)
  }

  /** Entry k of linked directory p is the place of directory d in the tree. */
  ghost predicate Holds(s: seq<Inode>, p: nat, k: nat, d: nat) {
    p < |s| && s[p].Linked() && 2 <= k < |s[p].ents| && s[p].ents[k].inum == d
  }

  /** Each linked directory but the root has one place, in the directory its ".." names; the root has none. */
  ghost predicate Placed(s: seq<Inode>, d: nat)
    requires d < |s|
  {
    && |s[d].ents| >= 2
    && (d == ROOT ==> s[d].ents[1].inum == ROOT)
    && (d != ROOT ==> exists k :: Holds(s, s[d].ents[1].inum, k, d))
    && (forall p, k | Holds(s, p, k, d) :: d != ROOT && p == s[d].ents[1].inum)
    && (forall p, k, l | Holds(s, p, k, d) && Holds(s, p, l, d) :: k == l)
  }

  /** Following ".." from d comes nearer the root. */
  ghost predicate Above(s: seq<Inode>, h: seq<nat>, d: nat)
    requires d < |s|
  {
    |h| == |s| && |s[d].ents| >= 2 && s[d].ents[1].inum < |h| && (d != ROOT ==> h[s[d].ents[1].inum] < h[d])
  }

  /** Between system calls, h being each directory's depth. */
  ghost predicate Inv(s: seq<Inode>, h: seq<nat>) {
    && ROOT < |s| && s[ROOT].Linked() && !s[0].Linked() && Counted(s)
    && (forall d | 0 <= d < |s| && s[d].Linked() :: Formed(s, d) && Placed(s, d) && Above(s, h, d))
  }

  /** writei of one entry, in an old slot or at the end. */
  function Put(ents: seq<Ent>, k: nat, e: Ent): seq<Ent>
    requires k <= |ents|
  {
    if k == |ents| then ents + [e] else ents[k := e]
  }

  lemma InPut(ents: seq<Ent>, k: nat, e: Ent, i: nat)
    requires k <= |ents| && i != 0
    ensures In(Put(ents, k, e), i)
         == In(ents, i) - (if k < |ents| && Names(ents[k], i) then 1 else 0) + (if Names(e, i) then 1 else 0)
  {
    if k == |ents| { InPush(ents, e, i); } else { InSet(ents, k, e, i); }
  }

  /** The name is in the directory. */
  ghost predicate Taken(ents: seq<Ent>, name: Name) {
    exists k | 0 <= k < |ents| :: ents[k].inum != 0 && ents[k].name == name
  }

  /** A place for a new entry: a slot not in use, or the end, for a name not in use. */
  ghost predicate Vacant(s: seq<Inode>, dp: nat, k: nat, name: Name) {
    && 0 < dp < |s| && s[dp].Linked() && k <= |s[dp].ents| && (k < |s[dp].ents| ==> s[dp].ents[k].inum == 0)
    && !Taken(s[dp].ents, name)
  }

  lemma VacantPlace(s: seq<Inode>, h: seq<nat>, dp: nat, k: nat, name: Name)
    requires Inv(s, h) && Vacant(s, dp, k, name)
    ensures k >= 2 && name != "." && name != ".."
  {
    hide Placed, Counted, Above;
    assert Formed(s, dp);
    VacantDots(s, dp, k, name);
  }

  lemma VacantDots(s: seq<Inode>, dp: nat, k: nat, name: Name)
    requires Vacant(s, dp, k, name) && Formed(s, dp)
    ensures k >= 2 && name != "." && name != ".."
  {
    assert s[dp].ents[0].name == "." && s[dp].ents[1].name == "..";
  }

  // A link to a file, new or old.

  /** One more link to the file ip, which may just have been allocated. */
  function Entered(s: seq<Inode>, dp: nat, k: nat, name: Name, ip: nat, typ: int): (r: seq<Inode>)
    requires dp < |s| && ip < |s| && k <= |s[dp].ents|
    ensures |r| == |s|
  {
    s[ip := Inode(typ, s[ip].nlink + 1, s[ip].ents)][dp := s[dp].(ents := Put(s[dp].ents, k, Ent(ip, name)))]
  }

  ghost predicate CanEnter(s: seq<Inode>, dp: nat, k: nat, name: Name, ip: nat, typ: int) {
    && Vacant(s, dp, k, name) && 0 < ip < |s| && typ != T_DIR && typ != 0 && (s[ip].typ == 0 || s[ip].typ == typ)
  }

  lemma EnterKeeps(s: seq<Inode>, h: seq<nat>, dp: nat, k: nat, name: Name, ip: nat, typ: int)
    requires Inv(s, h) && CanEnter(s, dp, k, name, ip, typ)
    ensures Inv(Entered(s, dp, k, name, ip, typ), h)
  {
    VacantPlace(s, h, dp, k, name);
    var r := Entered(s, dp, k, name, ip, typ);
    EnterCounted(s, dp, k, name, ip, typ);
    assert r[ROOT].Linked() && !r[0].Linked();
    hide Formed, Placed, Counted, Above, Entered, CanEnter;
    forall d | 0 <= d < |r| && r[d].Linked() ensures Formed(r, d) && Placed(r, d) && Above(r, h, d) {
      EnterOne(s, h, dp, k, name, ip, typ, d);
    }
  }

  lemma EnterOne(s: seq<Inode>, h: seq<nat>, dp: nat, k: nat, name: Name, ip: nat, typ: int, d: nat)
    requires Inv(s, h) && CanEnter(s, dp, k, name, ip, typ) && k >= 2 && name != "." && name != ".."
    requires d < |s| && Entered(s, dp, k, name, ip, typ)[d].Linked()
    ensures var r := Entered(s, dp, k, name, ip, typ); Formed(r, d) && Placed(r, d) && Above(r, h, d)
  {
    hide Formed, Placed, Counted, Holds;
    var r := Entered(s, dp, k, name, ip, typ);
    assert s[d].Linked() && Above(s, h, d);
    EnterFormed(s, dp, k, name, ip, typ, d);
    EnterHolds(s, dp, k, name, ip, typ, d);
    FormedDots(s, d);
    FormedDots(r, d);
    PlacedStill(s, r, d);
  }

  lemma FormedDots(s: seq<Inode>, d: nat)
    requires d < |s| && Formed(s, d)
    ensures |s[d].ents| >= 2 && s[d].ents[0].inum == d && s[d].ents[1].inum != 0
  {
  }

  lemma EnterCounted(s: seq<Inode>, dp: nat, k: nat, name: Name, ip: nat, typ: int)
    requires Counted(s) && CanEnter(s, dp, k, name, ip, typ) && name != "."
    ensures Counted(Entered(s, dp, k, name, ip, typ))
  {
    var t := s[ip := Inode(typ, s[ip].nlink + 1, s[ip].ents)];
    var x := s[dp].(ents := Put(s[dp].ents, k, Ent(ip, name)));
    forall i | 0 < i < |s| ensures Count(t[dp := x], i) == Count(s, i) + if i == ip then 1 else 0 {
      CountSet(s, ip, t[ip], i);
      CountSet(t, dp, x, i);
      InPut(s[dp].ents, k, Ent(ip, name), i);
    }
  }

  lemma EnterFormed(s: seq<Inode>, dp: nat, k: nat, name: Name, ip: nat, typ: int, d: nat)
    requires CanEnter(s, dp, k, name, ip, typ) && k >= 2 && name != "." && name != ".." && d < |s|
    requires s[d].Linked() && Formed(s, d)
    ensures Formed(Entered(s, dp, k, name, ip, typ), d)
  {
    var r := Entered(s, dp, k, name, ip, typ);
    if d == dp {
      assert forall l | 0 <= l < |s[dp].ents| && s[dp].ents[l].inum != 0 :: s[dp].ents[l].name != name;
    }
  }

  lemma EnterHolds(s: seq<Inode>, dp: nat, k: nat, name: Name, ip: nat, typ: int, d: nat)
    requires CanEnter(s, dp, k, name, ip, typ) && d < |s| && d != 0 && s[d].Linked()
    ensures var r := Entered(s, dp, k, name, ip, typ); forall p, l :: Holds(r, p, l, d) <==> Holds(s, p, l, d)
  {
  }

  /** A directory's place depends on nothing but its dots and the entries naming it. */
  lemma PlacedStill(s: seq<Inode>, r: seq<Inode>, d: nat)
    requires d < |s| == |r| && Placed(s, d) && |r[d].ents| >= 2 && r[d].ents[1] == s[d].ents[1]
    requires forall p, l :: Holds(r, p, l, d) <==> Holds(s, p, l, d)
    ensures Placed(r, d)
  {
    hide Holds;
  }

  /** A name put into a directory keeps the link counts right exactly when that directory has not been removed: create
      and link do not look. */
  lemma EnterKeepsIff(s: seq<Inode>, h: seq<nat>, dp: nat, k: nat, name: Name, ip: nat, typ: int)
    requires Inv(s, h) && 0 < dp < |s| && s[dp].typ == T_DIR && k <= |s[dp].ents|
    requires k < |s[dp].ents| ==> s[dp].ents[k].inum == 0
    requires !Taken(s[dp].ents, name) && 0 < ip < |s| && typ != T_DIR && typ != 0
    requires s[ip].typ == 0 || s[ip].typ == typ
    ensures s[dp].Linked() ==> Inv(Entered(s, dp, k, name, ip, typ), h)
    ensures (exists g :: Inv(Entered(s, dp, k, name, ip, typ), g)) <==> s[dp].Linked()
  {
    hide Formed, Placed, Above;
    if s[dp].Linked() {
      EnterKeeps(s, h, dp, k, name, ip, typ);
    } else {
      var t := s[ip := Inode(typ, s[ip].nlink + 1, s[ip].ents)];
      CountSet(s, ip, t[ip], ip);
      CountSet(t, dp, s[dp].(ents := Put(s[dp].ents, k, Ent(ip, name))), ip);
      assert s[ip].nlink == Count(s, ip);
    }
  }

  // A new directory.

  /** The new directory ip under dp. */
  function Made(s: seq<Inode>, dp: nat, k: nat, name: Name, ip: nat): (r: seq<Inode>)
    requires dp < |s| && ip < |s| && k <= |s[dp].ents|
    ensures |r| == |s|
  {
    s[ip := Inode(T_DIR, 1, [Ent(ip, "."), Ent(dp, "..")])]
     [dp := Inode(s[dp].typ, s[dp].nlink + 1, Put(s[dp].ents, k, Ent(ip, name)))]
  }

  ghost predicate CanMake(s: seq<Inode>, dp: nat, k: nat, name: Name, ip: nat) {
    Vacant(s, dp, k, name) && 0 < ip < |s| && s[ip].typ == 0
  }

  lemma MakeKeeps(s: seq<Inode>, h: seq<nat>, dp: nat, k: nat, name: Name, ip: nat)
    requires Inv(s, h) && CanMake(s, dp, k, name, ip)
    ensures |h| == |s| && Inv(Made(s, dp, k, name, ip), h[ip := h[dp] + 1])
  {
    VacantPlace(s, h, dp, k, name);
    var r := Made(s, dp, k, name, ip);
    MakeCounted(s, dp, k, name, ip);
    CountedFree(s, ip);
    FreeUnnamed(s, h, ip);
    assert r[ROOT].Linked() && !r[0].Linked();
    assert Above(s, h, ROOT);
    hide Formed, Placed, Counted, Above, Made, CanMake, Holds;
    forall d | 0 <= d < |r| && r[d].Linked() ensures Formed(r, d) && Placed(r, d) && Above(r, h[ip := h[dp] + 1], d) {
      MakeOne(s, h, dp, k, name, ip, d);
    }
  }

  /** So does a new directory. In a removed one the link counts would even come right, since the new ".." makes its
      parent look linked; but that parent has no place in the tree. */
  lemma MakeKeepsIff(s: seq<Inode>, h: seq<nat>, dp: nat, k: nat, name: Name, ip: nat)
    requires Inv(s, h) && 0 < dp < |s| && s[dp].typ == T_DIR && k <= |s[dp].ents|
    requires k < |s[dp].ents| ==> s[dp].ents[k].inum == 0
    requires !Taken(s[dp].ents, name) && 0 < ip < |s| && s[ip].typ == 0
    ensures s[dp].Linked() ==> |h| == |s| && Inv(Made(s, dp, k, name, ip), h[ip := h[dp] + 1])
    ensures (exists g :: Inv(Made(s, dp, k, name, ip), g)) <==> s[dp].Linked()
  {
    hide Inv, Taken;
    if s[dp].Linked() {
      MakeKeeps(s, h, dp, k, name, ip);
    } else {
      forall g ensures !Inv(Made(s, dp, k, name, ip), g) {
        MakeBreaks(s, h, dp, k, name, ip, g);
      }
    }
  }

  lemma MakeBreaks(s: seq<Inode>, h: seq<nat>, dp: nat, k: nat, name: Name, ip: nat, g: seq<nat>)
    requires Inv(s, h) && 0 < dp < |s| && s[dp].typ == T_DIR && !s[dp].Linked() && k <= |s[dp].ents|
    requires 0 < ip < |s| && s[ip].typ == 0
    ensures !Inv(Made(s, dp, k, name, ip), g)
  {
    var r := Made(s, dp, k, name, ip);
    assert s[dp].nlink == Count(s, dp);
    hide Inv;
    PlaceNeeded(r, g, dp);
    forall p, j ensures !(p != dp && Holds(r, p, j, dp)) {
      Unplaced(s, dp, k, name, ip, p, j);
    }
  }

  lemma PlaceNeeded(s: seq<Inode>, h: seq<nat>, d: nat)
    requires d < |s| && s[d].Linked() && d != ROOT
    ensures Inv(s, h) ==> exists p, j :: p != d && Holds(s, p, j, d)
  {
    if Inv(s, h) {
      FormedAt(s, h, d);
      hide Inv, Formed;
      assert exists j :: Holds(s, s[d].ents[1].inum, j, d);
    }
  }

  /** A directory without links has no place, and making one in it gives it none. */
  lemma Unplaced(s: seq<Inode>, dp: nat, k: nat, name: Name, ip: nat, p: nat, j: nat)
    requires 0 < dp < |s| && Count(s, dp) == 0 && k <= |s[dp].ents| && 0 < ip < |s| && ip != dp && Dotted(s)
    ensures !(p != dp && Holds(Made(s, dp, k, name, ip), p, j, dp))
  {
    CountNone(s, dp);
    assert p < |s| && p != dp && p != ip ==> Made(s, dp, k, name, ip)[p] == s[p];
  }

  /** Past the first two entries of a linked directory none in use is called ".". */
  ghost predicate Dotted(s: seq<Inode>) {
    forall d, k | 0 <= d < |s| && s[d].Linked() && 2 <= k < |s[d].ents| && s[d].ents[k].inum != 0 ::
      s[d].ents[k].name != "."
  }

  lemma CountedFree(s: seq<Inode>, i: nat)
    requires Counted(s) && 0 < i < |s| && s[i].typ == 0
    ensures s[i].nlink == 0
  {
  }

  lemma MakeOne(s: seq<Inode>, h: seq<nat>, dp: nat, k: nat, name: Name, ip: nat, d: nat)
    requires Inv(s, h) && CanMake(s, dp, k, name, ip) && k >= 2 && name != "." && name != ".."
    requires forall p, l :: !Holds(s, p, l, ip)
    requires d < |s| == |h| && Made(s, dp, k, name, ip)[d].Linked()
    requires forall x | 0 <= x < |s| && s[x].Linked() :: |s[x].ents| >= 2 && s[x].ents[1].inum != ip
    ensures var r := Made(s, dp, k, name, ip); Formed(r, d) && Placed(r, d) && Above(r, h[ip := h[dp] + 1], d)
  {
    hide Formed, Placed, Counted, Holds;
    var r := Made(s, dp, k, name, ip);
    if d == ip {
      MakePlaced(s, dp, k, name, ip);
    } else {
      assert s[d].Linked() && Above(s, h, d);
      MakeFormed(s, dp, k, name, ip, d);
      MakeHolds(s, dp, k, name, ip, d);
      FormedDots(s, d);
      FormedDots(r, d);
      MadeDots(s, dp, k, name, ip, d);
      PlacedStill(s, r, d);
    }
  }

  lemma MadeDots(s: seq<Inode>, dp: nat, k: nat, name: Name, ip: nat, d: nat)
    requires CanMake(s, dp, k, name, ip) && k >= 2 && d < |s| && d != ip && |s[d].ents| >= 2
    ensures |Made(s, dp, k, name, ip)[d].ents| >= 2 && Made(s, dp, k, name, ip)[d].ents[1] == s[d].ents[1]
  {
  }

  lemma MakeCounted(s: seq<Inode>, dp: nat, k: nat, name: Name, ip: nat)
    requires Counted(s) && CanMake(s, dp, k, name, ip) && name != "."
    ensures Counted(Made(s, dp, k, name, ip))
  {
    var dots := [Ent(ip, "."), Ent(dp, "..")];
    var t := s[ip := Inode(T_DIR, 1, dots)];
    var x := Inode(s[dp].typ, s[dp].nlink + 1, Put(s[dp].ents, k, Ent(ip, name)));
    forall i | 0 < i < |s|
      ensures Count(t[dp := x], i) == Count(s, i) + (if i == ip then 1 else 0) + (if i == dp then 1 else 0) {
      CountSet(s, ip, t[ip], i);
      CountSet(t, dp, x, i);
      InPut(s[dp].ents, k, Ent(ip, name), i);
      InDots(ip, dp, i);
    }
  }

  lemma InDots(ip: nat, dp: nat, i: nat)
    ensures In([Ent(ip, "."), Ent(dp, "..")], i) == if i == dp then 1 else 0
  {
    InPush([Ent(ip, ".")], Ent(dp, ".."), i);
    InPush([], Ent(ip, "."), i);
    assert [] + [Ent(ip, ".")] == [Ent(ip, ".")];
    assert [Ent(ip, ".")] + [Ent(dp, "..")] == [Ent(ip, "."), Ent(dp, "..")];
  }

  /** No entry of a linked directory names a free inode. */
  lemma FreeUnnamed(s: seq<Inode>, h: seq<nat>, i: nat)
    requires Inv(s, h) && 0 < i < |s| && s[i].nlink == 0
    ensures forall p, l :: !Holds(s, p, l, i)
    ensures forall d | 0 <= d < |s| && s[d].Linked() :: |s[d].ents| >= 2 && s[d].ents[1].inum != i
  {
    CountNone(s, i);
    forall p: nat, l: nat | Holds(s, p, l, i) ensures false {
      assert Formed(s, p);
      assert Names(s[p].ents[l], i);
    }
    forall d | 0 <= d < |s| && s[d].Linked() ensures |s[d].ents| >= 2 && s[d].ents[1].inum != i {
      assert Formed(s, d);
      assert !Names(s[d].ents[1], i);
    }
  }

  lemma MakePlaced(s: seq<Inode>, dp: nat, k: nat, name: Name, ip: nat)
    requires CanMake(s, dp, k, name, ip) && k >= 2 && ip != ROOT && forall p, l :: !Holds(s, p, l, ip)
    ensures Formed(Made(s, dp, k, name, ip), ip) && Placed(Made(s, dp, k, name, ip), ip)
  {
    var r := Made(s, dp, k, name, ip);
    assert Holds(r, dp, k, ip);
    forall p: nat, l: nat | Holds(r, p, l, ip) ensures p == dp && l == k {
      assert !Holds(s, p, l, ip);
    }
  }

  lemma MakeFormed(s: seq<Inode>, dp: nat, k: nat, name: Name, ip: nat, d: nat)
    requires CanMake(s, dp, k, name, ip) && k >= 2 && name != "." && name != ".." && d < |s| && d != ip
    requires s[d].Linked() && Formed(s, d)
    ensures Formed(Made(s, dp, k, name, ip), d)
  {
    if d == dp {
      assert forall l | 0 <= l < |s[dp].ents| && s[dp].ents[l].inum != 0 :: s[dp].ents[l].name != name;
    }
  }

  lemma MakeHolds(s: seq<Inode>, dp: nat, k: nat, name: Name, ip: nat, d: nat)
    requires CanMake(s, dp, k, name, ip) && d < |s| && d != 0 && d != ip
    ensures var r := Made(s, dp, k, name, ip); forall p, l :: Holds(r, p, l, d) <==> Holds(s, p, l, d)
  {
  }

  // Taking a link away.

  /** isdirempty: nothing behind the dots. */
  predicate Empty(ents: seq<Ent>) {
    forall k | 2 <= k < |ents| :: ents[k].inum == 0
  }

  const BLANK: Ent := Ent(0, "")

  /** sys_unlink of entry k of dp. */
  function Unlinked(s: seq<Inode>, dp: nat, k: nat): (r: seq<Inode>)
    requires dp < |s| && k < |s[dp].ents| && s[dp].ents[k].inum < |s| && s[dp].ents[k].inum != dp
    ensures |r| == |s|
  {
    var ip := s[dp].ents[k].inum;
    s[dp := Inode(s[dp].typ, if s[ip].typ == T_DIR then s[dp].nlink - 1 else s[dp].nlink, s[dp].ents[k := BLANK])]
     [ip := s[ip].(nlink := s[ip].nlink - 1)]
  }

  ghost predicate CanUnlink(s: seq<Inode>, dp: nat, k: nat) {
    && 0 < dp < |s| && s[dp].Linked() && 2 <= k < |s[dp].ents| && s[dp].ents[k].inum != 0
    && s[dp].ents[k].inum < |s| && (s[s[dp].ents[k].inum].typ == T_DIR ==> Empty(s[s[dp].ents[k].inum].ents))
  }

  /** The entry to go is a proper link, and not to its own directory or the root. */
  lemma UnlinkTarget(s: seq<Inode>, h: seq<nat>, dp: nat, k: nat)
    requires Inv(s, h) && CanUnlink(s, dp, k)
    ensures var ip := s[dp].ents[k].inum;
      && ip != dp && Names(s[dp].ents[k], ip) && s[ip].nlink >= 1 && s[ip].typ != 0 && Holds(s, dp, k, ip)
      && (s[ip].typ == T_DIR ==>
        s[ip].Linked() && Formed(s, ip) && Placed(s, ip) && ip != ROOT && s[ip].ents[1].inum == dp)
  {
    var ip := s[dp].ents[k].inum;
    assert Formed(s, dp) && Above(s, h, dp);
    assert Names(s[dp].ents[k], ip);
    CountNone(s, ip);
    assert s[ip].nlink == Count(s, ip) >= 1;
    assert Holds(s, dp, k, ip);
    if s[ip].typ == T_DIR {
      assert Formed(s, ip) && Placed(s, ip) && Above(s, h, ip);
    }
  }

  /** With one entry blanked, its target has one link less, and any other the same. */
  lemma Blanked(s: seq<Inode>, dp: nat, k: nat, i: nat)
    requires dp < |s| && s[dp].Linked() && k < |s[dp].ents| && i != 0
    ensures Count(s[dp := s[dp].(ents := s[dp].ents[k := BLANK])], i)
         == Count(s, i) - if Names(s[dp].ents[k], i) then 1 else 0
  {
    CountSet(s, dp, s[dp].(ents := s[dp].ents[k := BLANK]), i);
    InSet(s[dp].ents, k, BLANK, i);
  }

  lemma UnlinkFileKeeps(s: seq<Inode>, h: seq<nat>, dp: nat, k: nat)
    requires Inv(s, h) && CanUnlink(s, dp, k) && s[dp].ents[k].inum != dp && s[s[dp].ents[k].inum].typ != T_DIR
    ensures Inv(Unlinked(s, dp, k), h)
  {
    UnlinkTarget(s, h, dp, k);
    var r := Unlinked(s, dp, k);
    UnlinkFileCounted(s, dp, k);
    assert r[ROOT].Linked() && !r[0].Linked();
    hide Formed, Placed, Counted, Above, Unlinked, CanUnlink, Holds;
    forall d | 0 <= d < |r| && r[d].Linked() ensures Formed(r, d) && Placed(r, d) && Above(r, h, d) {
      UnlinkFileOne(s, h, dp, k, d);
    }
  }

  lemma UnlinkFileCounted(s: seq<Inode>, dp: nat, k: nat)
    requires Counted(s) && CanUnlink(s, dp, k) && s[dp].ents[k].inum != dp && s[s[dp].ents[k].inum].typ != T_DIR
    requires Names(s[dp].ents[k], s[dp].ents[k].inum) && s[s[dp].ents[k].inum].typ != 0
    ensures Counted(Unlinked(s, dp, k))
  {
    var ip := s[dp].ents[k].inum;
    var t := s[dp := s[dp].(ents := s[dp].ents[k := BLANK])];
    forall i | 0 < i < |s| ensures Count(Unlinked(s, dp, k), i) == Count(s, i) - if i == ip then 1 else 0 {
      Blanked(s, dp, k, i);
      CountSet(t, ip, s[ip].(nlink := s[ip].nlink - 1), i);
    }
  }

  lemma UnlinkFormed(s: seq<Inode>, dp: nat, k: nat, d: nat)
    requires CanUnlink(s, dp, k) && s[dp].ents[k].inum != dp && d < |s| && d != s[dp].ents[k].inum && s[d].Linked()
    requires Formed(s, d)
    requires Unlinked(s, dp, k)[s[d].ents[1].inum].Linked()
    ensures Formed(Unlinked(s, dp, k), d) && Unlinked(s, dp, k)[d].ents[1] == s[d].ents[1]
  {
  }

  lemma UnlinkHolds(s: seq<Inode>, dp: nat, k: nat, d: nat, p: nat, l: nat)
    requires CanUnlink(s, dp, k) && s[dp].ents[k].inum != dp && d != 0 && d != s[dp].ents[k].inum
    requires Unlinked(s, dp, k)[dp].Linked()
    ensures Holds(Unlinked(s, dp, k), p, l, d) <==> Holds(s, p, l, d)
  {
  }

  /** What unlinking leaves of a directory that stays. */
  lemma UnlinkOther(s: seq<Inode>, h: seq<nat>, dp: nat, k: nat, d: nat)
    requires CanUnlink(s, dp, k) && s[dp].ents[k].inum != dp && d < |s| && d != 0 && d != s[dp].ents[k].inum
    requires s[d].Linked()
    requires Formed(s, d) && Placed(s, d) && Above(s, h, d)
    requires Unlinked(s, dp, k)[s[d].ents[1].inum].Linked() && Unlinked(s, dp, k)[dp].Linked()
    ensures var r := Unlinked(s, dp, k); Formed(r, d) && Placed(r, d) && Above(r, h, d)
  {
    UnlinkFormed(s, dp, k, d);
    var r := Unlinked(s, dp, k);
    hide Placed, Holds;
    FormedDots(r, d);
    forall p: nat, l: nat ensures Holds(r, p, l, d) <==> Holds(s, p, l, d) {
      UnlinkHolds(s, dp, k, d, p, l);
    }
    hide Formed, CanUnlink;
    PlacedStill(s, r, d);
  }

  lemma UnlinkFileOne(s: seq<Inode>, h: seq<nat>, dp: nat, k: nat, d: nat)
    requires Inv(s, h) && CanUnlink(s, dp, k) && s[dp].ents[k].inum != dp && s[s[dp].ents[k].inum].typ != T_DIR
    requires d < |s| && Unlinked(s, dp, k)[d].Linked()
    ensures var r := Unlinked(s, dp, k); Formed(r, d) && Placed(r, d) && Above(r, h, d)
  {
    hide Inv, Formed, Placed, Above;
    var r := Unlinked(s, dp, k);
    assert s[d].Linked() && r[dp].Linked();
    FormedAt(s, h, d);
    assert r[s[d].ents[1].inum].Linked();
    UnlinkOther(s, h, dp, k, d);
  }

  lemma {:induction false} InEmpty(ents: seq<Ent>, i: nat)
    requires |ents| >= 2 && Empty(ents) && ents[0].name == "." && i != 0
    ensures In(ents, i) == if Names(ents[1], i) then 1 else 0
    decreases |ents|
  {
    if |ents| == 2 {
      InPush(ents[..1], ents[1], i);
      InPush([], ents[0], i);
      assert [] + [ents[0]] == ents[..1] && ents[..1] + [ents[1]] == ents;
    } else {
      InEmpty(ents[..|ents| - 1], i);
    }
  }

  /** An empty directory is named by its place alone. */
  lemma EmptyOnce(s: seq<Inode>, h: seq<nat>, dp: nat, k: nat)
    requires Inv(s, h) && CanUnlink(s, dp, k) && s[s[dp].ents[k].inum].typ == T_DIR
    ensures Count(s, s[dp].ents[k].inum) == 1
    ensures forall d | 0 <= d < |s| && s[d].Linked() :: |s[d].ents| >= 2 && s[d].ents[1].inum != s[dp].ents[k].inum
  {
    hide Inv, Formed, Placed, Above, Holds;
    var ip := s[dp].ents[k].inum;
    UnlinkTarget(s, h, dp, k);
    forall d | 0 <= d < |s| && s[d].Linked() ensures |s[d].ents| >= 2 && s[d].ents[1].inum != ip {
      NotParent(s, h, ip, d);
    }
    var t := s[dp := s[dp].(ents := s[dp].ents[k := BLANK])];
    Blanked(s, dp, k, ip);
    forall d, l | 0 <= d < |t| && t[d].Linked() && 0 <= l < |t[d].ents| ensures !Names(t[d].ents[l], ip) {
      NamedOnce(s, h, dp, k, d, l);
    }
    CountNone(t, ip);
  }

  lemma NotParent(s: seq<Inode>, h: seq<nat>, ip: nat, d: nat)
    requires Inv(s, h) && 0 < ip < |s| && ip != ROOT && Empty(s[ip].ents) && d < |s| && s[d].Linked()
    ensures |s[d].ents| >= 2 && s[d].ents[1].inum != ip
  {
    assert Formed(s, d) && Placed(s, d) && d != 0;
    hide Inv, Counted, Formed;
    if d != ROOT {
      var k :| Holds(s, s[d].ents[1].inum, k, d);
    }
  }

  lemma NamedOnce(s: seq<Inode>, h: seq<nat>, dp: nat, k: nat, d: nat, l: nat)
    requires Inv(s, h) && CanUnlink(s, dp, k) && s[s[dp].ents[k].inum].typ == T_DIR
    requires forall x | 0 <= x < |s| && s[x].Linked() :: |s[x].ents| >= 2 && s[x].ents[1].inum != s[dp].ents[k].inum
    requires d < |s| && s[d].Linked() && l < |s[d].ents|
    ensures Names(s[d].ents[l], s[dp].ents[k].inum) ==> d == dp && l == k
  {
    hide Inv, Formed, Placed, Above, Holds;
    var ip := s[dp].ents[k].inum;
    UnlinkTarget(s, h, dp, k);
    FormedAt(s, h, d);
    if Names(s[d].ents[l], ip) {
      NamesHolds(s, d, l, ip);
      PlaceOnce(s, ip, dp, k, d, l);
    }
  }

  lemma FormedAt(s: seq<Inode>, h: seq<nat>, d: nat)
    requires Inv(s, h) && d < |s| && s[d].Linked()
    ensures |s[d].ents| >= 2 && s[d].ents[0].name == "." && Formed(s, d) && Placed(s, d) && Above(s, h, d) && d != 0
    ensures s[d].ents[1].inum < |s| && s[s[d].ents[1].inum].Linked()
  {
    hide Counted, Placed;
  }

  /** An entry past the dots is a place. */
  lemma NamesHolds(s: seq<Inode>, d: nat, l: nat, i: nat)
    requires d < |s| && s[d].Linked() && l < |s[d].ents| && Names(s[d].ents[l], i)
    requires |s[d].ents| >= 2 && s[d].ents[0].name == "." && s[d].ents[1].inum != i
    ensures Holds(s, d, l, i)
  {
  }

  lemma PlaceOnce(s: seq<Inode>, d: nat, p: nat, k: nat, q: nat, l: nat)
    requires d < |s| && Placed(s, d) && Holds(s, p, k, d) && Holds(s, q, l, d)
    ensures p == q && k == l
  {
  }

  /** A directory with a subdirectory has a second link: the subdirectory's "..". */
  lemma ParentTwice(s: seq<Inode>, h: seq<nat>, dp: nat, ip: nat)
    requires Inv(s, h) && 0 < dp < |s| && s[dp].Linked() && 0 < ip < |s| && s[ip].Linked() && ip != ROOT && ip != dp
    requires s[ip].ents != [] && |s[ip].ents| >= 2 && s[ip].ents[1] == Ent(dp, "..")
    ensures Count(s, dp) >= 2
  {
    hide Inv, Formed, Placed, Above, Holds;
    var t := s[ip := s[ip].(ents := s[ip].ents[1 := BLANK])];
    Blanked(s, ip, 1, dp);
    var q, l := NamedElsewhere(s, h, dp);
    assert t[q].Linked() && Names(t[q].ents[l], dp);
    CountNone(t, dp);
  }

  /** An entry naming dp other than a subdirectory's "..". */
  lemma NamedElsewhere(s: seq<Inode>, h: seq<nat>, dp: nat) returns (q: nat, l: nat)
    requires Inv(s, h) && 0 < dp < |s| && s[dp].Linked()
    ensures q < |s| && s[q].Linked() && l < |s[q].ents| && Names(s[q].ents[l], dp) && (l == 1 ==> q == ROOT) && l >= 1
  {
    FormedAt(s, h, dp);
    if dp == ROOT {
      q, l := ROOT, 1;
    } else {
      q := s[dp].ents[1].inum;
      l :| Holds(s, q, l, dp);
      FormedAt(s, h, q);
      hide Inv, Placed;
      assert s[q].ents[l].name != ".";
    }
  }

  lemma DotDot(s: seq<Inode>, d: nat)
    requires d < |s| && Formed(s, d)
    ensures |s[d].ents| >= 2 && s[d].ents[0].name == "." && s[d].ents[1].name == ".."
  {
  }

  lemma UnlinkDirKeeps(s: seq<Inode>, h: seq<nat>, dp: nat, k: nat)
    requires Inv(s, h) && CanUnlink(s, dp, k) && s[dp].ents[k].inum != dp && s[s[dp].ents[k].inum].typ == T_DIR
    ensures Inv(Unlinked(s, dp, k), h)
  {
    hide Formed, Placed, Counted, Above, Holds;
    var ip := s[dp].ents[k].inum;
    UnlinkTarget(s, h, dp, k);
    EmptyOnce(s, h, dp, k);
    FormedAt(s, h, ip);
    DotDot(s, ip);
    ParentTwice(s, h, dp, ip);
    var r := Unlinked(s, dp, k);
    UnlinkDirCounted(s, dp, k);
    CountedAt(s, h, dp);
    assert r[ROOT].Linked() && !r[0].Linked();
    hide Unlinked, CanUnlink;
    forall d | 0 <= d < |r| && r[d].Linked() ensures Formed(r, d) && Placed(r, d) && Above(r, h, d) {
      UnlinkDirOne(s, h, dp, k, d);
    }
  }

  lemma UnlinkDirCounted(s: seq<Inode>, dp: nat, k: nat)
    requires Counted(s) && CanUnlink(s, dp, k) && s[dp].ents[k].inum != dp && s[s[dp].ents[k].inum].Linked()
    requires Names(s[dp].ents[k], s[dp].ents[k].inum) && Count(s, s[dp].ents[k].inum) == 1 && Count(s, dp) >= 2
    requires var e := s[s[dp].ents[k].inum].ents; |e| >= 2 && e[0].name == "." && e[1] == Ent(dp, "..")
    ensures Counted(Unlinked(s, dp, k))
  {
    var ip, r := s[dp].ents[k].inum, Unlinked(s, dp, k);
    var t := s[dp := s[dp].(ents := s[dp].ents[k := BLANK])];
    var x := Inode(s[dp].typ, s[dp].nlink - 1, s[dp].ents[k := BLANK]);
    var u := t[dp := x];
    assert u == s[dp := x] && r == u[ip := s[ip].(nlink := s[ip].nlink - 1)];
    forall i | 0 < i < |s|
      ensures Count(r, i) == Count(s, i) - (if i == ip then 1 else 0) - (if i == dp then 1 else 0) {
      Blanked(s, dp, k, i);
      CountSet(t, dp, x, i);
      CountSet(u, ip, s[ip].(nlink := s[ip].nlink - 1), i);
      InEmpty(s[ip].ents, i);
    }
  }

  lemma UnlinkDirOne(s: seq<Inode>, h: seq<nat>, dp: nat, k: nat, d: nat)
    requires Inv(s, h) && CanUnlink(s, dp, k) && s[dp].ents[k].inum != dp && s[s[dp].ents[k].inum].typ == T_DIR
    requires Count(s, s[dp].ents[k].inum) == 1 && Count(s, dp) >= 2
    requires forall x | 0 <= x < |s| && s[x].Linked() :: |s[x].ents| >= 2 && s[x].ents[1].inum != s[dp].ents[k].inum
    requires d < |s| && Unlinked(s, dp, k)[d].Linked()
    ensures var r := Unlinked(s, dp, k); Formed(r, d) && Placed(r, d) && Above(r, h, d)
  {
    hide Inv, Formed, Placed, Above;
    var r, ip := Unlinked(s, dp, k), s[dp].ents[k].inum;
    CountedAt(s, h, ip);
    CountedAt(s, h, dp);
    assert s[d].Linked() && d != ip && r[dp].Linked();
    FormedAt(s, h, d);
    UnlinkOther(s, h, dp, k, d);
  }

  lemma CountedAt(s: seq<Inode>, h: seq<nat>, i: nat)
    requires Inv(s, h) && 0 < i < |s|
    ensures s[i].nlink == Count(s, i)
  {
    hide Formed, Placed, Above;
  }

  /** iput of an inode without links. */
  lemma FreeKeeps(s: seq<Inode>, h: seq<nat>, i: nat)
    requires Inv(s, h) && 0 < i < |s| && s[i].nlink == 0
    ensures Inv(s[i := Inode(0, 0, [])], h)
  {
    var r := s[i := Inode(0, 0, [])];
    FreeCounted(s, h, i);
    hide Inv, Counted, Formed, Placed, Above;
    InvRoot(s, h);
    forall d | 0 <= d < |r| && r[d].Linked() ensures Formed(r, d) && Placed(r, d) && Above(r, h, d) {
      FormedAt(s, h, d);
      FreeOne(s, h, i, d);
    }
    InvBy(r, h);
  }

  lemma FreeCounted(s: seq<Inode>, h: seq<nat>, i: nat)
    requires Inv(s, h) && 0 < i < |s| && s[i].nlink == 0
    ensures Counted(s[i := Inode(0, 0, [])])
  {
    hide Formed, Placed, Above;
    var r := s[i := Inode(0, 0, [])];
    forall j | 0 < j < |s| ensures Count(r, j) == Count(s, j) {
      CountSet(s, i, r[i], j);
    }
  }

  lemma InvRoot(s: seq<Inode>, h: seq<nat>)
    requires Inv(s, h)
    ensures ROOT < |s| && s[ROOT].Linked() && !s[0].Linked()
  {
    hide Formed, Placed, Above, Counted;
  }

  lemma InvBy(s: seq<Inode>, h: seq<nat>)
    requires ROOT < |s| && s[ROOT].Linked() && !s[0].Linked() && Counted(s)
    requires forall d | 0 <= d < |s| && s[d].Linked() :: Formed(s, d) && Placed(s, d) && Above(s, h, d)
    ensures Inv(s, h)
  {
  }

  lemma FreeOne(s: seq<Inode>, h: seq<nat>, i: nat, d: nat)
    requires i < |s| && s[i].nlink == 0 && d < |s| && s[d].Linked() && Formed(s, d) && Placed(s, d) && Above(s, h, d)
    ensures var r := s[i := Inode(0, 0, [])]; Formed(r, d) && Placed(r, d) && Above(r, h, d)
  {
    hide Placed;
    var r := s[i := Inode(0, 0, [])];
    forall p, l ensures Holds(r, p, l, d) <==> Holds(s, p, l, d) {}
    hide Holds;
    PlacedStill(s, r, d);
  }
}
