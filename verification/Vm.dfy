/** vm.c: page directories. A pte pointer is the table's frame, the index being that of the page. */
module Vm {
  import opened Blocks
  import opened Kalloc
  import opened PageMap
  import opened FrameCount

  /** Only free frames changed hands, and only to become tables of d. */
  ghost predicate Grown(own: seq<Owner>, own2: seq<Owner>, d: nat) {
    |own2| == |own| && forall f | 0 <= f < |own| ::
      own2[f] == own[f] || (own[f].Free? && own2[f].Table? && own2[f].d == d)
  }

  /** Every directory maps what it mapped. */
  ghost predicate SameMaps(mem: seq<Page>, own: seq<Owner>, mem2: seq<Page>) {
    |mem2| == |mem| == |own| && forall d, v | 0 <= d < |own| && own[d].Dir? && 0 <= v < NPAGES ::
      Look(mem2, d, v) == Look(mem, d, v)
  }

  /** Pages in use hold what they held. */
  ghost predicate SameData(mem: seq<Page>, own: seq<Owner>, mem2: seq<Page>) {
    |mem2| == |mem| == |own| && forall f | 0 <= f < |own| && (own[f].User? || own[f].Used?) :: mem2[f] == mem[f]
  }

  ghost predicate Good(k: Kmem)
    reads k
  {
    k.Valid() && Sound(k.mem, k.own)
  }

  /** The table for page v under d, 0 if there is none. */
  function TableOf(mem: seq<Page>, d: nat, v: nat): nat
    requires d < |mem| && v < NPAGES
  {
    if Present(mem[d][v / NENT]) then Frame(mem[d][v / NENT]) else 0
  }

  lemma TableFacts(mem: seq<Page>, own: seq<Owner>, d: nat, v: nat)
    requires Sound(mem, own) && d < |mem| && own[d].Dir? && v < NPAGES
    ensures var t := TableOf(mem, d, v);
            if Present(mem[d][v / NENT]) then t < |mem| && own[t] == Table(d, v / NENT)
              && Look(mem, d, v) == mem[t][v % NENT]
            else forall w | 0 <= w < NPAGES && w / NENT == v / NENT :: Look(mem, d, w) == 0
  {
  }

  method Walkpgdir(k: Kmem, d: nat, v: nat, alloc: bool) returns (t: nat)
    requires Good(k) && d < NF && k.own[d].Dir? && v < NPAGES
    modifies k
    ensures Good(k) && k.own[d].Dir?
    ensures t != 0 ==> t < NF && k.own[t] == Table(d, v / NENT) && k.mem[t][v % NENT] == Look(k.mem, d, v)
    ensures t == 0 ==>
      k.mem == old(k.mem) && forall w | 0 <= w < NPAGES && w / NENT == v / NENT :: Look(k.mem, d, w) == 0
    ensures t == 0 ==> !Present(old(k.mem)[d][v / NENT])
    ensures t != 0 && !alloc ==> Present(old(k.mem)[d][v / NENT])
    ensures alloc ==> Charged(old(k.mem)[d], |old(k.free)|, k.mem[d], |k.free|, 0, v, v + 1, t != 0)
    ensures t == 0 && alloc ==> old(k.free) == []
    ensures t == 0 || !alloc ==> k.mem == old(k.mem) && k.own == old(k.own) && k.free == old(k.free)
    ensures SameMaps(old(k.mem), old(k.own), k.mem) && SameData(old(k.mem), old(k.own), k.mem)
    ensures Grown(old(k.own), k.own, d)
  {
    hide Chain, Listed, Tables, Users, Look, Charged;
    TableFacts(k.mem, k.own, d, v);
    var pde := k.mem[d][v / NENT];
    if Present(pde) {
      t := Frame(pde);
      ListedAt(k.own, k.free, k.first, t);
      ChargedOne(k.mem[d], |k.free|, k.mem[d], |k.free|, v);
      return;
    }
    if !alloc {
      return 0;
    }
    t := NewTablePage(k, d, v);
  }

  lemma TableEntry(t: nat)
    requires t < NPAGES
    ensures t * PGSIZE + 7 < UINT && Present(t * PGSIZE + 7) && Frame(t * PGSIZE + 7) == t && Passing(t * PGSIZE + 7)
  {
    Joined(t, 7);
    assert t * PGSIZE + 7 == 8 * (t * 512) + 7;
  }

  /** The part of walkpgdir that makes a table. */
  method NewTablePage(k: Kmem, d: nat, v: nat) returns (t: nat)
    requires Good(k) && d < NF && k.own[d].Dir? && v < NPAGES && !Present(k.mem[d][v / NENT])
    modifies k
    ensures Good(k) && k.own[d].Dir?
    ensures t != 0 ==> t < NF && k.own[t] == Table(d, v / NENT) && k.mem[t][v % NENT] == Look(k.mem, d, v)
    ensures t == 0 ==> k.mem == old(k.mem) && k.own == old(k.own) && k.free == old(k.free) && old(k.free) == []
    ensures Charged(old(k.mem)[d], |old(k.free)|, k.mem[d], |k.free|, 0, v, v + 1, t != 0)
    ensures SameMaps(old(k.mem), old(k.own), k.mem) && SameData(old(k.mem), old(k.own), k.mem)
    ensures Grown(old(k.own), k.own, d)
  {
    hide Chain, Listed, Tables, Users, Look, Charged, Present, Passing, Frame;
    ghost var mem0, own0 := k.mem, k.own;
    t := k.Kalloc();
    if t == 0 {
      ChargedShort(k.mem[d], v);
      return;
    }
    k.Set(t, Filled(0));
    ScratchKeeps(mem0, own0, k.mem, k.own);
    TableEntry(t);
    ListedAt(k.own, k.free, k.first, d);
    ghost var mem1, own1 := k.mem, k.own;
    NewTable(mem1, own1, d, v / NENT, t, t * PGSIZE + 7);
    k.Set(d, k.mem[d][v / NENT := t * PGSIZE + 7]);          // V2P(pgtab) | PTE_P | PTE_W | PTE_U
    k.Tag(t, Table(d, v / NENT));
    ChargedOne(mem0[d], |k.free| + 1, k.mem[d], |k.free|, v);
    TableFacts(k.mem, k.own, d, v);
  }

  /** What mapping page v to frame f does to ownership: tables may be made, and a user page becomes d's. */
  ghost predicate Claimed(own: seq<Owner>, own2: seq<Owner>, d: nat, v: nat, f: nat)
    requires v < NPAGES
  {
    && |own2| == |own|
    && (forall g | 0 <= g < |own| && !(v < KPAGE && g == f) ::
      own2[g] == own[g] || (own[g].Free? && own2[g].Table? && own2[g].d == d))
    && (v < KPAGE ==> f < |own| && own2[f] == User(d, v / NENT, v % NENT))
  }

  /** Directory d additionally maps n pages from v on to the frames from f on. */
  ghost predicate Mapped(mem: seq<Page>, own: seq<Owner>, mem2: seq<Page>, d: nat, v: nat, n: nat, f: nat, perm: nat) {
    && |mem2| == |mem| == |own| && perm < PGSIZE && v + n <= NPAGES && f + n <= NPAGES
    && forall d2, w | 0 <= d2 < |own| && own[d2].Dir? && 0 <= w < NPAGES ::
         Look(mem2, d2, w) == if d2 == d && v <= w < v + n then Entry(f + w - v, perm) else Look(mem, d2, w)
  }

  ghost predicate Absent(mem: seq<Page>, d: nat, v: nat, n: nat)
    requires d < |mem|
  {
    v + n <= NPAGES && forall w | v <= w < v + n :: !Present(Look(mem, d, w))
  }

  /** One page mapped, and nothing else touched. */
  ghost predicate MapPost(mem: seq<Page>, own: seq<Owner>, mem2: seq<Page>, own2: seq<Owner>, d: nat, v: nat, f: nat,
                          perm: nat) {
    && v < NPAGES && Sound(mem2, own2) && SameData(mem, own, mem2) && Claimed(own, own2, d, v, f)
    && Mapped(mem, own, mem2, d, v, 1, f, perm) && d < |own2| && own2[d].Dir?
  }

  /** One round of mappages. */
  method MapOne(k: Kmem, d: nat, v: nat, f: nat, perm: nat) returns (ok: bool)
    requires Good(k) && d < NF && k.own[d].Dir? && v < NPAGES && f < NPAGES && perm < PGSIZE
    requires !Present(Look(k.mem, d, v))
    requires v < KPAGE ==> k.first <= f < NF && k.own[f].Used?
    modifies k
    ensures k.Valid() && Charged(old(k.mem)[d], |old(k.free)|, k.mem[d], |k.free|, 0, v, v + 1, ok)
    ensures if ok then MapPost(old(k.mem), old(k.own), k.mem, k.own, d, v, f, perm)
            else k.mem == old(k.mem) && k.own == old(k.own) && k.free == old(k.free) && k.free == []
  {
    hide Chain, Listed, Sound, Look, Present, MapPost, Grown, SameData, SameMaps, Charged;
    ghost var mem0, own0 := k.mem, k.own;
    var t := Walkpgdir(k, d, v, true);
    if t == 0 {
      return false;
    }
    ghost var mem1, own1 := k.mem, k.own;
    DirsStay(own0, own1, d);
    k.Set(t, k.mem[t][v % NENT := Entry(f, perm)]);
    if v < KPAGE {
      k.Tag(f, User(d, v / NENT, v % NENT));
    }
    MapOneDone(mem0, own0, mem1, own1, k.mem, k.own, d, v, f, perm, t);
    return true;
  }

  lemma MapOneDone(mem0: seq<Page>, own0: seq<Owner>, mem: seq<Page>, own: seq<Owner>, mem2: seq<Page>,
                   own2: seq<Owner>, d: nat, v: nat, f: nat, perm: nat, t: nat)
    requires SameMaps(mem0, own0, mem) && SameData(mem0, own0, mem) && Grown(own0, own, d) && Sound(mem, own)
    requires d < |mem| && own0[d].Dir? && v < NPAGES && f < NPAGES && perm < PGSIZE && !Present(Look(mem0, d, v))
    requires v < KPAGE ==> f < |mem| && own0[f].Used?
    requires t < |mem| && own[t] == Table(d, v / NENT) && mem[t][v % NENT] == Look(mem, d, v)
    requires mem2 == mem[t := mem[t][v % NENT := Entry(f, perm)]]
    requires own2 == if v < KPAGE then own[f := User(d, v / NENT, v % NENT)] else own
    ensures MapPost(mem0, own0, mem2, own2, d, v, f, perm)
  {
    DirsStay(own0, own, d);
    StoreEntry(mem, own, t, v, f, Entry(f, perm));
    hide Sound, Look, Entry;
    MapOneClaimed(own0, own, own2, d, v, f);
    MapOneData(mem0, own0, mem, own, mem2, d, t, v % NENT, Entry(f, perm));
    hide SameData, Grown, Claimed;
  }

  lemma MapOneClaimed(own0: seq<Owner>, own: seq<Owner>, own2: seq<Owner>, d: nat, v: nat, f: nat)
    requires Grown(own0, own, d) && v < NPAGES && (v < KPAGE ==> f < |own0|)
    requires own2 == if v < KPAGE then own[f := User(d, v / NENT, v % NENT)] else own
    ensures Claimed(own0, own2, d, v, f)
  {
  }

  lemma MapOneData(mem0: seq<Page>, own0: seq<Owner>, mem: seq<Page>, own: seq<Owner>, mem2: seq<Page>, d: nat, t: nat,
                   j: nat, e: Word)
    requires SameData(mem0, own0, mem) && Grown(own0, own, d) && t < |mem| && own[t].Table? && j < NENT
    requires mem2 == mem[t := mem[t][j := e]]
    ensures SameData(mem0, own0, mem2)
  {
  }

  /** The store of mappages keeps the ownership sound. */
  lemma StoreEntry(mem: seq<Page>, own: seq<Owner>, t: nat, v: nat, f: nat, e: Word)
    requires Sound(mem, own) && v < NPAGES && t < |mem| && own[t].Table? && own[t].i == v / NENT
    requires !Present(mem[t][v % NENT])
    requires Present(e) && Frame(e) == f && (v < KPAGE ==> f < |mem| && own[f].Used?)
    ensures v < KPAGE ==> Sound(mem[t := mem[t][v % NENT := e]], own[f := User(own[t].d, v / NENT, v % NENT)])
    ensures v >= KPAGE ==> Sound(mem[t := mem[t][v % NENT := e]], own)
    ensures forall d2, w | 0 <= d2 < |mem| && own[d2].Dir? && 0 <= w < NPAGES ::
              Look(mem[t := mem[t][v % NENT := e]], d2, w) == if d2 == own[t].d && w == v then e else Look(mem, d2, w)
  {
    assert Vpn(v / NENT, v % NENT) == v;
    SetLook(mem, own, t, v % NENT, e);
    if v < KPAGE {
      AddUser(mem, own, t, v % NENT, f, e);
    } else {
      SetKernel(mem, own, t, v % NENT, e);
    }
    var mem2 := mem[t := mem[t][v % NENT := e]];
    forall d2, w | 0 <= d2 < |mem| && own[d2].Dir? && 0 <= w < NPAGES
      ensures Look(mem2, d2, w) == if d2 == own[t].d && w == v then e else Look(mem, d2, w) {
      VpnOnce(w, v / NENT, v % NENT);
    }
  }

  /** What callers of mappages see to: no page is mapped twice, and the pages are either the kernel's or one user
      page on a frame of the caller's. */
  ghost predicate CanMap(mem: seq<Page>, own: seq<Owner>, first: nat, d: nat, v: nat, n: nat, f: nat) {
    && |mem| == |own| && d < |mem| && own[d].Dir? && 0 < n && f + n <= NPAGES && Absent(mem, d, v, n)
    && (v >= KPAGE || (n == 1 && first <= f < |own| && own[f].Used?))
  }

  /** After m of n pages. */
  ghost predicate Progress(mem: seq<Page>, own: seq<Owner>, mem2: seq<Page>, own2: seq<Owner>,
                           d: nat, v: nat, m: nat, f: nat, perm: nat) {
    && Sound(mem2, own2) && SameData(mem, own, mem2) && Mapped(mem, own, mem2, d, v, m, f, perm) && Grown(own, own2, d)
    && (m == 0 ==> mem2 == mem && own2 == own) && d < |own2| && own2[d].Dir?
  }

  function Pages(va: Word, size: Word): int
    requires size > 0
  {
    (va + size - 1) / PGSIZE - va / PGSIZE + 1
  }

  /** mappages: all the pages, or as many as there was memory for. */
  method Mappages(k: Kmem, d: nat, va: Word, size: Word, pa: Word, perm: nat) returns (r: int, ghost m: nat)
    requires Good(k) && d < NF && size > 0 && va as int + size <= UINT && pa % PGSIZE == 0 && perm < PGSIZE
    requires CanMap(k.mem, k.own, k.first, d, va / PGSIZE, Pages(va, size), pa / PGSIZE)
    modifies k
    ensures k.Valid() && (r == 0 || (r == -1 && k.free == []))
    ensures Charged(old(k.mem)[d], |old(k.free)|, k.mem[d], |k.free|, 0, va / PGSIZE, va / PGSIZE + Pages(va, size),
      r == 0)
    ensures r == 0 && va / PGSIZE < KPAGE ==>
      MapPost(old(k.mem), old(k.own), k.mem, k.own, d, va / PGSIZE, pa / PGSIZE, perm)
    ensures r == -1 || va / PGSIZE >= KPAGE ==>
              Progress(old(k.mem), old(k.own), k.mem, k.own, d, va / PGSIZE, m, pa / PGSIZE, perm)
              && if r == 0 then m == Pages(va, size) else m < Pages(va, size)
    ensures r == -1 && m == 0 ==> k.free == old(k.free)
  {
    hide Chain, Listed, Sound, Look, Present, Entry, MapPost, Progress, CanMap, Charged;
    var a, last, f := va / PGSIZE, (va + size - 1) / PGSIZE, pa / PGSIZE;
    m := 0;
    ghost var v, f0, n, mem0, own0 := a, f, Pages(va, size), k.mem, k.own;
    ghost var n0 := |k.free|;
    ProgressNone(mem0, own0, k.first, d, v, n, f, perm);
    ChargedNone(mem0[d], n0, v);
    while true
      invariant k.Valid() && v <= a <= last && m == a - v && f == f0 + m
      invariant Progress(mem0, own0, k.mem, k.own, d, v, m, f0, perm)
      invariant (m == 0 ==> k.free == old(k.free)) && Charged(mem0[d], n0, k.mem[d], |k.free|, 0, v, a, true)
      decreases last - a
    {
      ghost var mem1, own1, n1 := k.mem, k.own, |k.free|;
      ProgressReady(mem0, own0, mem1, own1, k.first, d, v, m, n, f0, perm);
      var ok := MapOne(k, d, a, f, perm);
      ChargedMore(mem0[d], n0, mem1[d], n1, k.mem[d], |k.free|, 0, 0, v, a, a + 1, ok);
      if !ok {
        ChargedLess(mem0[d], n0, k.mem[d], |k.free|, k.mem[d], |k.free|, 0, 0, v, a + 1, v + n);
        return -1, m;
      }
      ProgressStep(mem0, own0, mem1, own1, k.mem, k.own, k.first, d, v, m, n, f0, perm);
      m := m + 1;
      if a == last {
        break;
      }
      a := a + 1;
      f := f + 1;
    }
    return 0, m;
  }

  lemma ProgressNone(mem: seq<Page>, own: seq<Owner>, first: nat, d: nat, v: nat, n: nat, f: nat, perm: nat)
    requires CanMap(mem, own, first, d, v, n, f) && Sound(mem, own) && perm < PGSIZE
    ensures Progress(mem, own, mem, own, d, v, 0, f, perm) && v + n <= NPAGES && f + n <= NPAGES
    ensures v < KPAGE ==> n == 1
  {
    hide Sound, Look;
  }

  lemma ProgressReady(mem: seq<Page>, own: seq<Owner>, mem1: seq<Page>, own1: seq<Owner>, first: nat,
                      d: nat, v: nat, m: nat, n: nat, f: nat, perm: nat)
    requires CanMap(mem, own, first, d, v, n, f) && Progress(mem, own, mem1, own1, d, v, m, f, perm) && m < n
    ensures Sound(mem1, own1) && d < |mem1| == |own1| == |own| && own1[d].Dir? && v + m < NPAGES && f + m < NPAGES
    ensures perm < PGSIZE
    ensures !Present(Look(mem1, d, v + m))
    ensures v + m < KPAGE ==> m == 0 && first <= f + m < |own1| && own1[f + m].Used?
  {
    hide Look, Sound, Entry, Present;
    assert !Present(Look(mem, d, v + m));
  }

  lemma ProgressStep(mem: seq<Page>, own: seq<Owner>, mem1: seq<Page>, own1: seq<Owner>, mem2: seq<Page>,
                     own2: seq<Owner>, first: nat, d: nat, v: nat, m: nat, n: nat, f: nat, perm: nat)
    requires CanMap(mem, own, first, d, v, n, f) && Progress(mem, own, mem1, own1, d, v, m, f, perm) && m < n
    requires MapPost(mem1, own1, mem2, own2, d, v + m, f + m, perm)
    ensures v >= KPAGE ==> Progress(mem, own, mem2, own2, d, v, m + 1, f, perm)
    ensures v < KPAGE ==> n == 1 && MapPost(mem, own, mem2, own2, d, v, f, perm)
  {
    hide Look, Sound, Entry, Present, Absent;
    DirsStay(own, own1, d);
    if v >= KPAGE {
      MappedMore(mem, own, mem1, own1, mem2, d, v, m, f, perm);
      SameDataTrans(mem, own, mem1, own1, mem2, d);
      ClaimedGrown(own, own1, own2, d, v + m, f + m);
      hide Mapped, SameData, Claimed, Grown;
    }
  }

  lemma ClaimedGrown(own: seq<Owner>, own1: seq<Owner>, own2: seq<Owner>, d: nat, v: nat, f: nat)
    requires Grown(own, own1, d) && v < NPAGES && Claimed(own1, own2, d, v, f)
    ensures v >= KPAGE ==> Grown(own, own2, d)
  {
  }

  lemma DirsStay(own: seq<Owner>, own2: seq<Owner>, d: nat)
    requires Grown(own, own2, d)
    ensures forall f | 0 <= f < |own| && !own[f].Free? :: own2[f] == own[f]
  {
  }

  lemma MappedMore(mem: seq<Page>, own: seq<Owner>, mem1: seq<Page>, own1: seq<Owner>, mem2: seq<Page>,
                   d: nat, v: nat, m: nat, f: nat, perm: nat)
    requires Mapped(mem, own, mem1, d, v, m, f, perm) && Mapped(mem1, own1, mem2, d, v + m, 1, f + m, perm)
    requires |own1| == |own| && forall g | 0 <= g < |own| && own[g].Dir? :: own1[g].Dir?
    ensures Mapped(mem, own, mem2, d, v, m + 1, f, perm)
  {
    hide Look, Entry;
  }

  lemma SameDataTrans(mem: seq<Page>, own: seq<Owner>, mem1: seq<Page>, own1: seq<Owner>, mem2: seq<Page>, d: nat)
    requires SameData(mem, own, mem1) && Grown(own, own1, d) && SameData(mem1, own1, mem2)
    ensures SameData(mem, own, mem2)
  {
  }

  /** The page a user frame backs. */
  function PageOf(o: Owner): nat
    requires o.User? && o.i < KDIR && o.j < NENT
  {
    Vpn(o.i, o.j)
  }

  /** The frames of directory d that back pages from lo up to hi. */
  ghost predicate Backs(o: Owner, d: nat, lo: nat, hi: nat) {
    o.User? && o.d == d && o.i < KDIR && o.j < NENT && lo <= PageOf(o) < hi
  }

  /** Pages lo up to hi of d are gone, and their frames free. */
  ghost predicate Unmapped(mem: seq<Page>, own: seq<Owner>, mem2: seq<Page>, own2: seq<Owner>, d: nat, lo: nat,
                           hi: nat) {
    && Sound(mem2, own2) && |mem2| == |mem| == |own| && hi <= KPAGE
    && (forall f | 0 <= f < |own| :: own2[f] == if Backs(own[f], d, lo, hi) then Free else own[f])
    && (forall d2, w | 0 <= d2 < |own| && own[d2].Dir? && 0 <= w < NPAGES ::
          Look(mem2, d2, w) == if d2 == d && lo <= w < hi && Present(Look(mem, d, w)) then 0 else Look(mem, d2, w))
    && (forall f | 0 <= f < |own| && (own2[f].User? || own2[f].Used?) :: mem2[f] == mem[f])
  }

  lemma UserLook(mem: seq<Page>, own: seq<Owner>, f: nat)
    requires Sound(mem, own) && f < |mem| && own[f].User?
    ensures own[f].d < |mem| && own[own[f].d].Dir? && own[f].i < KDIR && own[f].j < NENT
    ensures Present(Look(mem, own[f].d, PageOf(own[f]))) && Frame(Look(mem, own[f].d, PageOf(own[f]))) == f
  {
  }

  lemma LookUser(mem: seq<Page>, own: seq<Owner>, d: nat, w: nat)
    requires Sound(mem, own) && d < |mem| && own[d].Dir? && w < KPAGE && Present(Look(mem, d, w))
    ensures Frame(Look(mem, d, w)) < |mem| && own[Frame(Look(mem, d, w))] == User(d, w / NENT, w % NENT)
    ensures PageOf(own[Frame(Look(mem, d, w))]) == w
  {
    TableFacts(mem, own, d, w);
    assert Vpn(w / NENT, w % NENT) == w;
    var t := TableOf(mem, d, w);
    assert own[t].i < KDIR && Present(mem[t][w % NENT]);
    assert own[Frame(mem[t][w % NENT])] == User(d, w / NENT, w % NENT);
    assert PageOf(User(d, w / NENT, w % NENT)) == w;
  }

  lemma UnmappedNone(mem: seq<Page>, own: seq<Owner>, d: nat, lo: nat)
    requires Sound(mem, own) && lo <= KPAGE
    ensures Unmapped(mem, own, mem, own, d, lo, lo)
  {
    assert |mem| == |own|;
    hide Sound;
  }

  /** Pages that are not there need no work. */
  lemma UnmappedSkip(mem: seq<Page>, own: seq<Owner>, mem2: seq<Page>, own2: seq<Owner>, d: nat, lo: nat, a: nat,
                     b: nat)
    requires Unmapped(mem, own, mem2, own2, d, lo, a) && lo <= a <= b <= KPAGE && d < |mem| && own[d].Dir?
    requires own2[d].Dir?
    requires forall w | a <= w < b :: !Present(Look(mem2, d, w))
    ensures Unmapped(mem, own, mem2, own2, d, lo, b)
  {
    forall f | 0 <= f < |own| && Backs(own[f], d, lo, b) ensures Backs(own[f], d, lo, a) {
      if !Backs(own[f], d, lo, a) {
        assert own2[f] == own[f];
        UserLook(mem2, own2, f);
      }
    }
    hide Sound;
  }

  /** kfree of a page and the store that follows it. */
  lemma Dropped(mem: seq<Page>, own: seq<Owner>, mem2: seq<Page>, d: nat, t: nat, w: nat)
    requires Sound(mem, own) && d < |mem| && own[d].Dir? && w < KPAGE && t < |mem| && own[t] == Table(d, w / NENT)
    requires mem[t][w % NENT] == Look(mem, d, w) && Present(Look(mem, d, w)) && |mem2| == |mem|
    requires forall g | 0 <= g < |mem| && g != Frame(Look(mem, d, w)) ::
      mem2[g] == if g == t then mem[t][w % NENT := 0] else mem[g]
    ensures Frame(Look(mem, d, w)) < |mem| && own[Frame(Look(mem, d, w))] == User(d, w / NENT, w % NENT)
    ensures Sound(mem2, own[Frame(Look(mem, d, w)) := Free])
    ensures forall d2, x | 0 <= d2 < |mem| && own[d2].Dir? && 0 <= x < NPAGES ::
              Look(mem2, d2, x) == if d2 == d && x == w then 0 else Look(mem, d2, x)
  {
    LookUser(mem, own, d, w);
    DropUser(mem, own, t, w % NENT, Free);
    SetLook(mem, own, t, w % NENT, 0);
    hide Sound, Look;
    var p := Frame(mem[t][w % NENT]);
    var mem1, own1 := mem[t := mem[t][w % NENT := 0]], own[p := Free];
    ScratchKeeps(mem1, own1, mem2, own1);
    forall d2, x | 0 <= d2 < |mem| && own[d2].Dir? && 0 <= x < NPAGES
      ensures Look(mem2, d2, x) == if d2 == d && x == w then 0 else Look(mem, d2, x) {
      VpnOnce(x, w / NENT, w % NENT);
      assert Vpn(w / NENT, w % NENT) == w;
      assert own1[d2].Dir?;
    }
  }

  lemma UnmappedMore(mem: seq<Page>, own: seq<Owner>, mem1: seq<Page>, own1: seq<Owner>, mem2: seq<Page>,
                     d: nat, lo: nat, t: nat, w: nat)
    requires Unmapped(mem, own, mem1, own1, d, lo, w) && lo <= w < KPAGE && d < |mem| && own[d].Dir? && own1[d].Dir?
    requires t < |mem| && own1[t] == Table(d, w / NENT) && mem1[t][w % NENT] == Look(mem1, d, w)
    requires Present(Look(mem1, d, w))
    requires |mem2| == |mem|
    requires forall g | 0 <= g < |mem| && g != Frame(Look(mem1, d, w)) ::
      mem2[g] == if g == t then mem1[t][w % NENT := 0] else mem1[g]
    ensures Frame(Look(mem1, d, w)) < |mem|
    ensures Unmapped(mem, own, mem2, own1[Frame(Look(mem1, d, w)) := Free], d, lo, w + 1)
  {
    Dropped(mem1, own1, mem2, d, t, w);
    UnmappedOwn(mem, own, mem1, own1, d, lo, w);
    hide Sound, Backs;
  }

  lemma UnmappedOwn(mem: seq<Page>, own: seq<Owner>, mem1: seq<Page>, own1: seq<Owner>, d: nat, lo: nat, w: nat)
    requires Unmapped(mem, own, mem1, own1, d, lo, w) && lo <= w < KPAGE && d < |mem| && own1[d].Dir?
    requires Present(Look(mem1, d, w))
    ensures Frame(Look(mem1, d, w)) < |own|
    ensures forall f | 0 <= f < |own| ::
              own1[Frame(Look(mem1, d, w)) := Free][f] == if Backs(own[f], d, lo, w + 1) then Free else own[f]
  {
    LookUser(mem1, own1, d, w);
    var p := Frame(Look(mem1, d, w));
    forall f | 0 <= f < |own| ensures own1[p := Free][f] == if Backs(own[f], d, lo, w + 1) then Free else own[f] {
      if Backs(own[f], d, w, w + 1) {
        assert own1[f] == own[f];
        UserLook(mem1, own1, f);
      }
    }
  }

  function PageUp(sz: int): int { (sz + PGSIZE - 1) / PGSIZE }

  /** deallocuvm's work for a page that is there. */
  method DropPage(k: Kmem, d: nat, t: nat, a: nat, ghost mem0: seq<Page>, ghost own0: seq<Owner>, ghost lo: nat)
    requires Good(k) && d < NF && k.own[d].Dir? && lo <= a < KPAGE && |mem0| == |own0| == NF && own0[d].Dir?
    requires t < NF && k.own[t] == Table(d, a / NENT) && k.mem[t][a % NENT] == Look(k.mem, d, a)
    requires Present(k.mem[t][a % NENT])
    requires Unmapped(mem0, own0, k.mem, k.own, d, lo, a)
    modifies k
    ensures Good(k) && k.own[d].Dir? && Unmapped(mem0, own0, k.mem, k.own, d, lo, a + 1)
  {
    hide Chain, Listed, Sound, Look, Unmapped;
    ghost var mem1, own1 := k.mem, k.own;
    var p := Frame(k.mem[t][a % NENT]);
    LookUser(mem1, own1, d, a);
    ListedAt(k.own, k.free, k.first, p);
    k.Kfree(p);
    k.Set(t, k.mem[t][a % NENT := 0]);
    UnmappedMore(mem0, own0, mem1, own1, k.mem, d, lo, t, a);
    UnmappedSound(mem0, own0, k.mem, k.own, d, lo, a + 1);
  }

  /** deallocuvm: what a page-by-page loop would remove, past any missing table in one stride. */
  method Deallocuvm(k: Kmem, d: nat, oldsz: Word, newsz: Word) returns (r: Word)
    requires Good(k) && d < NF && k.own[d].Dir? && oldsz <= KPAGE * PGSIZE
    modifies k
    ensures k.Valid() && k.own[d].Dir? && r == (if newsz >= oldsz then oldsz else newsz)
    ensures newsz >= oldsz ==> k.mem == old(k.mem) && k.own == old(k.own) && k.free == old(k.free)
    ensures newsz < oldsz ==> Unmapped(old(k.mem), old(k.own), k.mem, k.own, d, PageUp(newsz), PageUp(oldsz))
  {
    hide Chain, Listed, Sound, Look, Unmapped;
    if newsz >= oldsz {
      return oldsz;
    }
    var a: nat := PageUp(newsz);
    ghost var lo: nat, hi: nat, mem0, own0 := a, PageUp(oldsz), k.mem, k.own;
    UnmappedNone(mem0, own0, d, lo);
    while a * PGSIZE < oldsz
      invariant k.Valid() && Sound(k.mem, k.own) && k.own[d].Dir? && lo <= a && lo <= hi
      invariant Unmapped(mem0, own0, k.mem, k.own, d, lo, if a < hi then a else hi)
      decreases hi - a
    {
      ghost var b := a;
      var t := Walkpgdir(k, d, a, false);
      ghost var mem1, own1 := k.mem, k.own;
      if t == 0 {
        a := (a / NENT + 1) * NENT - 1;                 // PGADDR(PDX(a) + 1, 0, 0) - PGSIZE
        UnmappedSkip(mem0, own0, mem1, own1, d, lo, b, if a + 1 < hi then a + 1 else hi);
      } else if Present(k.mem[t][a % NENT]) {
        DropPage(k, d, t, a, mem0, own0, lo);
      } else {
        UnmappedSkip(mem0, own0, mem1, own1, d, lo, b, a + 1);
      }
      a := a + 1;
    }
    return newsz;
  }

  lemma UnmappedSound(mem: seq<Page>, own: seq<Owner>, mem2: seq<Page>, own2: seq<Owner>, d: nat, lo: nat, hi: nat)
    requires Unmapped(mem, own, mem2, own2, d, lo, hi)
    ensures Sound(mem2, own2)
  {
  }

  /** The frames of directory d: itself, its tables and its user pages. */
  predicate Belongs(o: Owner, f: nat, d: nat) {
    f == d || (o.Table? && o.d == d) || (o.User? && o.d == d)
  }

  function Released(own: seq<Owner>, d: nat): (r: seq<Owner>)
    ensures |r| == |own|
  {
    seq(|own|, f requires 0 <= f < |own| => if Belongs(own[f], f, d) then Free else own[f])
  }

  /** Directory d is gone, with everything it had; other directories and their pages are as they were. */
  ghost predicate Gone(mem: seq<Page>, own: seq<Owner>, mem2: seq<Page>, own2: seq<Owner>, d: nat) {
    && Sound(mem2, own2) && |mem2| == |mem| == |own| && own2 == Released(own, d)
    && (forall d2, w | 0 <= d2 < |own| && d2 != d && own[d2].Dir? && 0 <= w < NPAGES ::
      Look(mem2, d2, w) == Look(mem, d2, w))
    && (forall f | 0 <= f < |own| && (own2[f].User? || own2[f].Used?) :: mem2[f] == mem[f])
  }

  /** Ownership while freevm walks the directory: it and the tables from the i-th entry on are still held. */
  function Stripped(own: seq<Owner>, d: nat, i: nat): (r: seq<Owner>)
    ensures |r| == |own|
  {
    seq(|own|, f requires 0 <= f < |own| =>
      if f == d then Used else if own[f].Table? && own[f].d == d then (if own[f].i < i then Free else Used) else own[f])
  }

  /** freevm's walk so far has spoilt only tables of d. */
  ghost predicate Stripping(mem1: seq<Page>, own1: seq<Owner>, mem: seq<Page>, d: nat, first: nat) {
    && Sound(mem1, own1) && |mem| == |mem1| && d < |mem| && own1[d].Dir?
    && (forall f | 0 <= f < |own1| :: !(own1[f].User? && own1[f].d == d))
    && (forall f | 0 <= f < |own1| :: mem[f] == mem1[f] || (own1[f].Table? && own1[f].d == d))
    && (forall f | 0 <= f < |own1| && !own1[f].Used? :: f >= first)
  }

  lemma NoUsers(mem0: seq<Page>, own0: seq<Owner>, mem1: seq<Page>, own1: seq<Owner>, d: nat, free: seq<nat>,
                first: nat)
    requires Sound(mem0, own0) && d < |mem0| && own0[d].Dir? && Unmapped(mem0, own0, mem1, own1, d, 0, KPAGE)
    requires Listed(own1, free, first) && own1[d].Dir?
    ensures Stripping(mem1, own1, mem1, d, first)
  {
    forall f | 0 <= f < |own1| ensures !(own1[f].User? && own1[f].d == d) {
      if own0[f].User? {
        UserLook(mem0, own0, f);
      }
    }
    hide Sound;
  }

  lemma StrippedAt(mem1: seq<Page>, own1: seq<Owner>, mem: seq<Page>, d: nat, first: nat, i: nat)
    requires Stripping(mem1, own1, mem, d, first) && i < NENT
    ensures var f := Frame(mem[d][i]);
      if Present(mem[d][i]) then
        && f < |mem| && f >= first && f != d && Stripped(own1, d, i)[f].Used? && own1[f] == Table(d, i)
        && Stripped(own1, d, i + 1) == Stripped(own1, d, i)[f := Free]
      else Stripped(own1, d, i + 1) == Stripped(own1, d, i)
  {
    assert mem[d] == mem1[d];
    var f := Frame(mem[d][i]);
    if Present(mem[d][i]) {
      assert own1[f] == Table(d, i);
      assert Stripped(own1, d, i + 1) == Stripped(own1, d, i)[f := Free];
    } else {
      assert Stripped(own1, d, i + 1) == Stripped(own1, d, i);
    }
  }

  lemma StrippedMore(mem1: seq<Page>, own1: seq<Owner>, mem: seq<Page>, mem2: seq<Page>, d: nat, first: nat, f: nat)
    requires Stripping(mem1, own1, mem, d, first) && f < |own1| && own1[f].Table? && own1[f].d == d && |mem2| == |mem|
    requires forall g | 0 <= g < |mem| && g != f :: mem2[g] == mem[g]
    ensures Stripping(mem1, own1, mem2, d, first)
  {
    assert |mem1| == |own1|;
    hide Sound;
  }

  lemma StrippedFirst(mem1: seq<Page>, own1: seq<Owner>, mem: seq<Page>, d: nat, first: nat, i: nat)
    requires Stripping(mem1, own1, mem, d, first)
    ensures d < |own1| && Stripped(own1, d, i)[d].Used? && d >= first
    ensures forall f | 0 <= f < |own1| ::
      Stripped(own1, d, 0)[f] == own1[f] || (!own1[f].Free? && Stripped(own1, d, 0)[f].Used?)
  {
  }

  lemma AllGone(mem0: seq<Page>, own0: seq<Owner>, mem1: seq<Page>, own1: seq<Owner>, mem: seq<Page>, mem2: seq<Page>,
                own2: seq<Owner>, d: nat, first: nat)
    requires Sound(mem0, own0) && d < |mem0| && own0[d].Dir? && Unmapped(mem0, own0, mem1, own1, d, 0, KPAGE)
    requires Stripping(mem1, own1, mem, d, first) && |mem2| == |mem|
    requires forall g | 0 <= g < |mem| && g != d :: mem2[g] == mem[g]
    requires own2 == Stripped(own1, d, NENT)[d := Free]
    ensures Gone(mem0, own0, mem2, own2, d)
  {
    ReleasedIs(mem0, own0, mem1, own1, d);
    Undo(mem1, own1, d);
    TablesLow(mem1, own1);
    hide Sound, Look;
    var u := Undone(own1, d);
    assert own2 == Released(own1, d);
    ScratchKeeps(mem1, u, mem2, own2);
    forall d2, w | 0 <= d2 < |own0| && d2 != d && own0[d2].Dir? && 0 <= w < NPAGES
      ensures Look(mem2, d2, w) == Look(mem0, d2, w) {
      assert u[d2].Dir?;
    }
  }

  lemma TablesLow(mem: seq<Page>, own: seq<Owner>)
    requires Sound(mem, own)
    ensures forall t | 0 <= t < |own| && own[t].Table? :: own[t].i < NENT
  {
  }

  lemma ReleasedIs(mem0: seq<Page>, own0: seq<Owner>, mem1: seq<Page>, own1: seq<Owner>, d: nat)
    requires Sound(mem0, own0) && d < |mem0| && own0[d].Dir? && Unmapped(mem0, own0, mem1, own1, d, 0, KPAGE)
    ensures Released(own1, d) == Released(own0, d)
  {
    forall f | 0 <= f < |own0| ensures Released(own1, d)[f] == Released(own0, d)[f] {
      if own0[f].User? {
        UserLook(mem0, own0, f);
      }
    }
  }

  /** freevm */
  method Freevm(k: Kmem, d: nat)
    requires Good(k) && d < NF && k.own[d].Dir?
    modifies k
    ensures k.Valid() && Gone(old(k.mem), old(k.own), k.mem, k.own, d)
  {
    hide Chain, Listed, Sound, Look, Unmapped, Gone, Stripped, Stripping;
    ghost var mem0, own0 := k.mem, k.own;
    var sz := Deallocuvm(k, d, KPAGE * PGSIZE, 0);
    ghost var mem1, own1 := k.mem, k.own;
    NoUsers(mem0, own0, mem1, own1, d, k.free, k.first);
    StrippedFirst(mem1, own1, k.mem, d, k.first, 0);
    k.Untag(Stripped(own1, d, 0));
    var i := 0;
    while i < NENT
      invariant 0 <= i <= NENT && k.Valid() && k.own == Stripped(own1, d, i)
      invariant Stripping(mem1, own1, k.mem, d, k.first)
    {
      ghost var mem := k.mem;
      StrippedAt(mem1, own1, mem, d, k.first, i);
      if Present(k.mem[d][i]) {
        k.Kfree(Frame(k.mem[d][i]));
        StrippedMore(mem1, own1, mem, k.mem, d, k.first, Frame(mem[d][i]));
      }
      i := i + 1;
    }
    ghost var mem2 := k.mem;
    StrippedFirst(mem1, own1, mem2, d, k.first, NENT);
    k.Kfree(d);
    AllGone(mem0, own0, mem1, own1, mem2, k.mem, k.own, d, k.first);
  }

  /** Frames went only from the free list to directory d and what it holds. */
  ghost predicate Within(own: seq<Owner>, own2: seq<Owner>, d: nat) {
    |own2| == |own| && forall f | 0 <= f < |own| :: own2[f] == own[f] || (own[f].Free? && Belongs(own2[f], f, d))
  }

  /** Giving up a directory that did not exist before gives back exactly what was taken. */
  lemma FreedAll(mem: seq<Page>, own: seq<Owner>, own1: seq<Owner>, d: nat)
    requires Sound(mem, own) && d < |own| && own[d].Free? && Within(own, own1, d)
    ensures Released(own1, d) == own
  {
    forall f | 0 <= f < |own| ensures Released(own1, d)[f] == own[f] {
      if own1[f] == own[f] && Belongs(own[f], f, d) {
        assert own[f].Free?;
      }
    }
  }

  lemma GrownWithin(own: seq<Owner>, own1: seq<Owner>, own2: seq<Owner>, d: nat)
    requires Within(own, own1, d) && Grown(own1, own2, d)
    ensures Within(own, own2, d)
  {
  }

  // The kernel's part of every directory, by page number.
  const LINKPAGE: nat := 0x8_0100       // KERNLINK
  const TOPPAGE: nat := 0x8_E000        // P2V(PHYSTOP)
  const DEVPAGE: nat := 0xF_E000        // DEVSPACE

  /** What kmap prescribes for page v, the kernel's data starting at page `data`. */
  function KernelPte(data: nat, v: nat): Word
    requires v < NPAGES
  {
    if KPAGE <= v < LINKPAGE then Entry(v - KPAGE, 2)
    else if LINKPAGE <= v < data && v < TOPPAGE then Entry(v - KPAGE, 0)
    else if data <= v < TOPPAGE && v >= LINKPAGE then Entry(v - KPAGE, 2)
    else if DEVPAGE <= v then Entry(v, 2)
    else 0
  }

  /** Directory d maps the kernel as kmap says, and no user page but those below n. */
  ghost predicate KernelMap(mem: seq<Page>, d: nat, data: nat)
    requires d < |mem|
  {
    forall v | KPAGE <= v < NPAGES :: Look(mem, d, v) == KernelPte(data, v)
  }

  /** One kmap row as first page, pages, first frame, permissions. */
  datatype Kmap = Kmap(v: nat, n: nat, f: nat, perm: nat)

  function KmapRow(data: nat, i: nat): Kmap
    requires i < 4 && LINKPAGE < data < TOPPAGE
  {
    if i == 0 then Kmap(KPAGE, LINKPAGE - KPAGE, 0, 2)
    else if i == 1 then Kmap(LINKPAGE, data - LINKPAGE, LINKPAGE - KPAGE, 0)
    else if i == 2 then Kmap(data, TOPPAGE - data, data - KPAGE, 2)
    else Kmap(DEVPAGE, NPAGES - DEVPAGE, DEVPAGE, 2)
  }

  /** A new directory d, and nothing else touched. */
  ghost predicate HalfBuilt(mem: seq<Page>, own: seq<Owner>, mem2: seq<Page>, own2: seq<Owner>, d: nat) {
    && Sound(mem2, own2) && |mem2| == |mem| == |own| && Within(own, own2, d) && SameData(mem, own, mem2)
      && SameMaps(mem, own, mem2)
    && d < |mem| && own[d].Free? && own2[d].Dir?
  }

  /** setupkvm has mapped the kernel up to page v. */
  ghost predicate Building(mem: seq<Page>, own: seq<Owner>, mem2: seq<Page>, own2: seq<Owner>, d: nat, data: nat,
                           v: nat) {
    && HalfBuilt(mem, own, mem2, own2, d)
    && forall w | 0 <= w < NPAGES :: Look(mem2, d, w) == if KPAGE <= w < v then KernelPte(data, w) else 0
  }

  /** Nothing of the caller's changed hands or contents. */
  ghost predicate Restored(mem: seq<Page>, own: seq<Owner>, mem2: seq<Page>, own2: seq<Owner>) {
    Sound(mem2, own2) && own2 == own && SameData(mem, own, mem2) && SameMaps(mem, own, mem2)
  }

  lemma Untouched(mem: seq<Page>, own: seq<Owner>)
    requires Sound(mem, own)
    ensures Restored(mem, own, mem, own)
  {
    assert |mem| == |own|;
    hide Sound, Look;
  }

  lemma Started(mem: seq<Page>, own: seq<Owner>, d: nat, data: nat)
    requires Sound(mem, own) && d < |mem| && own[d].Free?
    ensures Building(mem, own, mem[d := Filled(0)], own[d := Dir], d, data, KPAGE)
  {
    var mem1 := mem[d := Filled(0)];
    ScratchKeeps(mem, own, mem1, own[d := Used]);
    NewDir(mem1, own[d := Used], d);
    assert own[d := Used][d := Dir] == own[d := Dir];
    hide Sound, Look, KernelPte;
  }

  lemma RowReady(mem: seq<Page>, own: seq<Owner>, mem1: seq<Page>, own1: seq<Owner>, first: nat, d: nat, data: nat,
                 i: nat)
    requires LINKPAGE < data < TOPPAGE && i < 4
    requires Building(mem, own, mem1, own1, d, data, KmapRow(data, i).v)
    ensures var row := KmapRow(data, i); CanMap(mem1, own1, first, d, row.v, row.n, row.f)
    ensures Sound(mem1, own1) && d < |mem1| && own1[d].Dir?
  {
    hide Sound, Look, KernelPte;
  }

  /** The row in bytes, as mappages is given it; for the last row the size is 2^32 - DEVSPACE, which is 0 - DEVSPACE
      in 32 bits. */
  lemma RowBytes(data: nat, i: nat)
    requires LINKPAGE < data < TOPPAGE && i < 4
    ensures var row := KmapRow(data, i);
      && 0 < row.n * PGSIZE < UINT && row.v * PGSIZE + row.n * PGSIZE <= UINT && row.f * PGSIZE < UINT
      && row.v * PGSIZE < UINT && row.v * PGSIZE / PGSIZE == row.v && row.f * PGSIZE / PGSIZE == row.f
      && row.f * PGSIZE % PGSIZE == 0 && Pages(row.v * PGSIZE, row.n * PGSIZE) == row.n && row.v >= KPAGE
  {
  }

  /** Kernel pages mapped under a new directory touch nothing else. */
  lemma HalfMore(mem: seq<Page>, own: seq<Owner>, mem1: seq<Page>, own1: seq<Owner>, mem2: seq<Page>, own2: seq<Owner>,
                 d: nat, v: nat, m: nat, f: nat, perm: nat)
    requires HalfBuilt(mem, own, mem1, own1, d) && Progress(mem1, own1, mem2, own2, d, v, m, f, perm)
    ensures HalfBuilt(mem, own, mem2, own2, d)
  {
    hide Sound, Look;
    GrownWithin(own, own1, own2, d);
    assert forall g | 0 <= g < |own| && !own[g].Free? :: own1[g] == own[g];
    assert forall g | 0 <= g < |own| && own[g].Dir? :: g != d;
  }

  lemma RowDone(mem: seq<Page>, own: seq<Owner>, mem1: seq<Page>, own1: seq<Owner>, mem2: seq<Page>, own2: seq<Owner>,
                d: nat, data: nat, i: nat)
    requires LINKPAGE < data < TOPPAGE && i < 4
    requires Building(mem, own, mem1, own1, d, data, KmapRow(data, i).v)
    requires var row := KmapRow(data, i); Progress(mem1, own1, mem2, own2, d, row.v, row.n, row.f, row.perm)
    ensures Building(mem, own, mem2, own2, d, data, if i < 3 then KmapRow(data, i + 1).v else NPAGES)
  {
    var row := KmapRow(data, i);
    HalfMore(mem, own, mem1, own1, mem2, own2, d, row.v, row.n, row.f, row.perm);
    hide Sound, Look, Entry, HalfBuilt, SameData, Grown;
    assert HalfBuilt(mem, own, mem1, own1, d);
    RowDir(mem, own, mem1, own1, d);
  }

  lemma RowDir(mem: seq<Page>, own: seq<Owner>, mem1: seq<Page>, own1: seq<Owner>, d: nat)
    requires HalfBuilt(mem, own, mem1, own1, d)
    ensures d < |own1| == |mem1| && own1[d].Dir?
  {
  }

  /** freevm of a new directory restores everything. */
  lemma BuildingUndone(mem: seq<Page>, own: seq<Owner>, mem1: seq<Page>, own1: seq<Owner>, mem2: seq<Page>,
                       own2: seq<Owner>, d: nat)
    requires Sound(mem, own) && HalfBuilt(mem, own, mem1, own1, d) && Gone(mem1, own1, mem2, own2, d)
    ensures Restored(mem, own, mem2, own2)
  {
    FreedAll(mem, own, own1, d);
    hide Sound, Look, Released;
    assert forall g | 0 <= g < |own| && !own[g].Free? :: own1[g] == own[g] && g != d;
  }

  /** Of n0 free frames the directory and the tables of its first i rows have been taken; the first three rows follow on
      each other. */
  ghost predicate RowsPaid(pg: Page, n: nat, n0: nat, data: nat, i: nat)
    requires i <= 4 && LINKPAGE < data < TOPPAGE
  {
    if i == 4 then Paid(pg, n, n0, 0)
    else n0 >= 1 && Charged(Filled(0), n0 - 1, pg, n, 0, KPAGE, if i < 3 then KmapRow(data, i).v else TOPPAGE, true)
  }

  lemma RowsNone(n: nat, data: nat)
    requires LINKPAGE < data < TOPPAGE
    ensures RowsPaid(Filled(0), n, n + 1, data, 0)
  {
    ChargedNone(Filled(0), n, KPAGE);
  }

  lemma RowsAll(pg: Page, n: nat, n0: nat, data: nat)
    requires LINKPAGE < data < TOPPAGE && RowsPaid(pg, n, n0, data, 4)
    ensures Paid(pg, n, n0, 0)
  {
  }

  lemma RowPaid(pg: Page, n: nat, pg2: Page, n2: nat, n0: nat, data: nat, i: nat, ok: bool)
    requires i < 4 && LINKPAGE < data < TOPPAGE && RowsPaid(pg, n, n0, data, i)
    requires var row := KmapRow(data, i); Charged(pg, n, pg2, n2, 0, row.v, row.v + row.n, ok)
    ensures if ok then RowsPaid(pg2, n2, n0, data, i + 1) else n0 < KERNFRAMES
  {
    MissingAll(Filled(0), KDIR, KDIR + 56);
    if i < 3 {
      var row := KmapRow(data, i);
      ChargedMore(Filled(0), n0 - 1, pg, n, pg2, n2, 0, 0, KPAGE, row.v, row.v + row.n, ok);
      if !ok { ChargedLess(Filled(0), n0 - 1, pg2, n2, pg2, n2, 0, 0, KPAGE, row.v + row.n, TOPPAGE); }
    } else {
      MissingAll(pg, 1016, 1024);
    }
  }

  /** setupkvm: a directory with the kernel's map, or everything as it was. */
  method Setupkvm(k: Kmem, data: nat) returns (d: nat)
    requires Good(k) && LINKPAGE < data < TOPPAGE
    modifies k
    ensures k.Valid() && if d == 0 then |old(k.free)| < KERNFRAMES
                         else d < NF && Paid(k.mem[d], |k.free|, |old(k.free)|, 0)
    ensures if d == 0 then Restored(old(k.mem), old(k.own), k.mem, k.own)
            else Building(old(k.mem), old(k.own), k.mem, k.own, d, data, NPAGES)
  {
    hide Chain, Listed, Sound, Look, Building, HalfBuilt, Restored, Progress, CanMap, Gone, KernelPte, Absent,
      Charged, RowsPaid, Paid;
    ghost var mem0, own0, n0 := k.mem, k.own, |k.free|;
    d := k.Kalloc();
    if d == 0 {
      Untouched(mem0, own0);
      return;
    }
    k.Set(d, Filled(0));
    k.Tag(d, Dir);
    Started(mem0, own0, d, data);
    assert k.own == own0[d := Dir];
    RowsNone(|k.free|, data);
    var i := 0;
    while i < 4
      invariant 0 <= i <= 4 && k.Valid() && 0 < d < NF && RowsPaid(k.mem[d], |k.free|, n0, data, i)
      invariant Building(mem0, own0, k.mem, k.own, d, data, if i < 4 then KmapRow(data, i).v else NPAGES)
    {
      var row := KmapRow(data, i);
      ghost var mem1, own1, n1 := k.mem, k.own, |k.free|;
      RowReady(mem0, own0, mem1, own1, k.first, d, data, i);
      RowBytes(data, i);
      var r, m := Mappages(k, d, row.v * PGSIZE, row.n * PGSIZE, row.f * PGSIZE, row.perm);
      ghost var mem2, own2 := k.mem, k.own;
      RowPaid(mem1[d], n1, mem2[d], |k.free|, n0, data, i, r == 0);
      if r < 0 {
        BuildingHalf(mem0, own0, mem1, own1, d, data, row.v);
        HalfMore(mem0, own0, mem1, own1, mem2, own2, d, row.v, m, row.f, row.perm);
        HalfGood(mem0, own0, mem2, own2, d);
        Freevm(k, d);
        BuildingUndone(mem0, own0, mem2, own2, k.mem, k.own, d);
        return 0;
      }
      RowDone(mem0, own0, mem1, own1, mem2, own2, d, data, i);
      i := i + 1;
    }
    RowsAll(k.mem[d], |k.free|, n0, data);
  }

  lemma BuildingHalf(mem: seq<Page>, own: seq<Owner>, mem1: seq<Page>, own1: seq<Owner>, d: nat, data: nat, v: nat)
    requires Building(mem, own, mem1, own1, d, data, v)
    ensures HalfBuilt(mem, own, mem1, own1, d)
  {
  }

  lemma HalfGood(mem: seq<Page>, own: seq<Owner>, mem1: seq<Page>, own1: seq<Owner>, d: nat)
    requires HalfBuilt(mem, own, mem1, own1, d)
    ensures Sound(mem1, own1) && d < |own1| && own1[d].Dir?
  {
  }
}
