/** vm.c: growing a user address space, and copying one for fork. */
module UserSpace {
  import opened Blocks
  import opened Kalloc
  import opened PageMap
  import opened FrameCount
  import opened Vm

  /** A free frame f, filled with `page`, now backs page v of d. */
  ghost predicate Added(mem: seq<Page>, own: seq<Owner>, mem2: seq<Page>, own2: seq<Owner>, d: nat, v: nat, f: nat,
                        page: Page, perm: nat) {
    && Sound(mem2, own2) && |mem2| == |mem| == |own| == |own2| && v < KPAGE && f < |own| && perm < PGSIZE
    && own[f].Free? && own2[f] == User(d, v / NENT, v % NENT) && mem2[f] == page && d < |own2| && own2[d].Dir?
    && (forall g | 0 <= g < |own| && g != f :: own2[g] == own[g] || (own[g].Free? && own2[g].Table? && own2[g].d == d))
    && SameData(mem, own, mem2)
    && (forall d2, w | 0 <= d2 < |own| && own[d2].Dir? && 0 <= w < NPAGES ::
          Look(mem2, d2, w) == if d2 == d && w == v then Entry(f, perm) else Look(mem, d2, w))
  }

  lemma AddedOne(mem: seq<Page>, own: seq<Owner>, mem1: seq<Page>, own1: seq<Owner>, mem2: seq<Page>, own2: seq<Owner>,
                 d: nat, v: nat, f: nat, page: Page, perm: nat)
    requires Sound(mem, own) && f < |mem| && own[f].Free? && mem1 == mem[f := page] && own1 == own[f := Used]
    requires v < KPAGE && d < |own| && own[d].Dir? && perm < PGSIZE && MapPost(mem1, own1, mem2, own2, d, v, f, perm)
    ensures Added(mem, own, mem2, own2, d, v, f, page, perm)
  {
    ScratchKeeps(mem, own, mem1, own1);
    assert |mem| == |own|;
    hide Sound, Look, Entry;
  }

  /** A page that is not there can be mapped, to a frame just taken from the free list. */
  lemma CanMapUser(mem: seq<Page>, own: seq<Owner>, mem1: seq<Page>, own1: seq<Owner>, first: nat, d: nat, v: nat,
                   f: nat, page: Page)
    requires Sound(mem, own) && first <= f < |mem| < NPAGES && own[f].Free? && mem1 == mem[f := page]
    requires own1 == own[f := Used]
    requires v < KPAGE && d < |own| && own[d].Dir? && !Present(Look(mem, d, v))
    ensures Sound(mem1, own1) && CanMap(mem1, own1, first, d, v, 1, f)
  {
    ScratchKeeps(mem, own, mem1, own1);
    assert |mem| == |own|;
    hide Sound, Look, Absent, Present;
    assert Look(mem1, d, v) == Look(mem, d, v);
    AbsentOne(mem1, d, v);
  }

  lemma AbsentOne(mem: seq<Page>, d: nat, v: nat)
    requires d < |mem| && v < KPAGE && !Present(Look(mem, d, v))
    ensures Absent(mem, d, v, 1)
  {
  }

  lemma PageBytes(v: nat, f: nat)
    requires v < KPAGE && f < NF
    ensures v * PGSIZE < UINT && f * PGSIZE < UINT && v * PGSIZE + PGSIZE <= UINT && v * PGSIZE / PGSIZE == v
    ensures f * PGSIZE / PGSIZE == f && f * PGSIZE % PGSIZE == 0 && Pages(v * PGSIZE, PGSIZE) == 1
  {
  }

  /** kalloc, fill, mappages: the common step of allocuvm and copyuvm. r is 0 when either runs out of memory; the
      frame, if there was one, is then still the caller's. */
  method AddPage(k: Kmem, d: nat, v: nat, page: Page, perm: nat) returns (r: int, f: nat)
    requires Good(k) && d < NF && k.own[d].Dir? && v < KPAGE && perm < PGSIZE && !Present(Look(k.mem, d, v))
    modifies k
    ensures k.Valid() && Charged(old(k.mem)[d], |old(k.free)|, k.mem[d], |k.free|, 1, v, v + 1, r == 0)
    ensures r == 0 ==> Added(old(k.mem), old(k.own), k.mem, k.own, d, v, f, page, perm)
    ensures r != 0 && f == 0 ==> k.mem == old(k.mem) && k.own == old(k.own)
    ensures r != 0 && f != 0 ==>
      k.first <= f < NF && old(k.own[f].Free?) && k.own == old(k.own)[f := Used] && k.mem == old(k.mem)[f := page]
  {
    hide Chain, Listed, Sound, Look, CanMap, MapPost, Added, Progress, Charged;
    ghost var mem0, own0 := k.mem, k.own;
    f := k.Kalloc();
    if f == 0 {
      ChargedBroke(mem0[d], v);
      return -1, 0;
    }
    k.Set(f, page);
    ghost var n1 := |k.free|;
    ghost var mem1, own1 := k.mem, k.own;
    CanMapUser(mem0, own0, mem1, own1, k.first, d, v, f, page);
    PageBytes(v, f);
    ghost var m;
    r, m := Mappages(k, d, v * PGSIZE, PGSIZE, f * PGSIZE, perm);
    ChargedFrame(mem0[d], n1, k.mem[d], |k.free|, v, r == 0);
    if r == 0 {
      AddedOne(mem0, own0, mem1, own1, k.mem, k.own, d, v, f, page, perm);
    } else {
      ProgressZero(mem1, own1, k.mem, k.own, d, v, f, perm);
    }
  }

  lemma ChargedBroke(pg: Page, v: nat)
    requires v < KPAGE
    ensures Charged(pg, 0, pg, 0, 1, v, v + 1, false)
  {
  }

  /** And the page itself. */
  lemma ChargedFrame(pg: Page, n: nat, pg2: Page, n2: nat, v: nat, ok: bool)
    requires v < KPAGE && Charged(pg, n, pg2, n2, 0, v, v + 1, ok)
    ensures Charged(pg, n + 1, pg2, n2, 1, v, v + 1, ok)
  {
    hide Lacks;
  }

  lemma ProgressZero(mem: seq<Page>, own: seq<Owner>, mem2: seq<Page>, own2: seq<Owner>, d: nat, v: nat, f: nat,
                     perm: nat)
    requires Progress(mem, own, mem2, own2, d, v, 0, f, perm)
    ensures mem2 == mem && own2 == own
  {
  }

  /** allocuvm has added zeroed pages from lo up to a. */
  ghost predicate Raised(mem: seq<Page>, own: seq<Owner>, mem2: seq<Page>, own2: seq<Owner>, d: nat, lo: nat, a: nat) {
    && Sound(mem2, own2) && |mem2| == |mem| == |own| == |own2| && d < |own| && own2[d].Dir? && a <= KPAGE
    && Within(own, own2, d) && SameData(mem, own, mem2)
    && (forall d2, w | 0 <= d2 < |own| && own[d2].Dir? && 0 <= w < NPAGES && !(d2 == d && lo <= w < a) ::
          Look(mem2, d2, w) == Look(mem, d2, w))
    && (forall w | lo <= w < a :: NewPage(own, mem2, own2, d, w))
    && (forall g | 0 <= g < |own| && own[g].Free? && own2[g].User? :: Backs(own2[g], d, lo, a))
  }

  /** Page w of d is a frame that was free, zeroed, writable and the user's. */
  ghost predicate NewPage(own: seq<Owner>, mem2: seq<Page>, own2: seq<Owner>, d: nat, w: nat)
    requires |own| == |own2| == |mem2| && d < |mem2| && w < NPAGES
  {
    var e := Look(mem2, d, w);
    Present(e) && Flags(e) == 7 && Frame(e) < |own| && own[Frame(e)].Free?
      && own2[Frame(e)] == User(d, w / NENT, w % NENT)
    && mem2[Frame(e)] == Filled(0)
  }

  /** Every other directory maps what it did; in d every present entry is what it was, and no other is present. */
  ghost predicate SameShown(mem: seq<Page>, own: seq<Owner>, mem2: seq<Page>, d: nat) {
    |mem2| == |mem| == |own| && forall d2, w | 0 <= d2 < |own| && own[d2].Dir? && 0 <= w < NPAGES ::
      Look(mem2, d2, w) == Look(mem, d2, w) || (d2 == d && !Present(Look(mem2, d2, w)) && !Present(Look(mem, d2, w)))
  }

  /** allocuvm failed: every map and every page is as before, and only page tables were added. */
  ghost predicate Withdrawn(mem: seq<Page>, own: seq<Owner>, mem2: seq<Page>, own2: seq<Owner>, d: nat) {
    Sound(mem2, own2) && Grown(own, own2, d) && SameShown(mem, own, mem2, d) && SameData(mem, own, mem2)
  }

  lemma RaisedNone(mem: seq<Page>, own: seq<Owner>, d: nat, lo: nat)
    requires Sound(mem, own) && d < |own| && own[d].Dir? && lo <= KPAGE
    ensures Raised(mem, own, mem, own, d, lo, lo)
  {
    assert |mem| == |own|;
    hide Sound, Look;
  }

  lemma RaisedReady(mem: seq<Page>, own: seq<Owner>, mem1: seq<Page>, own1: seq<Owner>, d: nat, lo: nat, a: nat,
                    hi: nat)
    requires Raised(mem, own, mem1, own1, d, lo, a) && lo <= a < hi <= KPAGE && d < |mem| && own[d].Dir?
    requires Absent(mem, d, lo, hi - lo)
    ensures Sound(mem1, own1) && d < |mem1| && own1[d].Dir? && !Present(Look(mem1, d, a))
  {
    hide Sound, Look;
    assert !Present(Look(mem, d, a));
  }

  lemma RaisedMore(mem: seq<Page>, own: seq<Owner>, mem1: seq<Page>, own1: seq<Owner>, mem2: seq<Page>,
                   own2: seq<Owner>, d: nat, lo: nat, a: nat, f: nat)
    requires Raised(mem, own, mem1, own1, d, lo, a) && lo <= a < KPAGE && own[d].Dir?
    requires Added(mem1, own1, mem2, own2, d, a, f, Filled(0), 6)
    ensures Raised(mem, own, mem2, own2, d, lo, a + 1)
  {
    AddedFree(mem1, own1, mem2, own2, d, a, f);
    assert own[f].Free? by { assert own1[f] == own[f]; }
    RaisedPages(mem, own, mem1, own1, mem2, own2, d, lo, a, f);
    RaisedOwn(mem, own, mem1, own1, mem2, own2, d, lo, a, f);
    hide Sound, Look, Entry, NewPage, Within, Backs, SameData;
    assert forall g | 0 <= g < |own| && own[g].Dir? :: own1[g].Dir?;
  }

  lemma RaisedOwn(mem: seq<Page>, own: seq<Owner>, mem1: seq<Page>, own1: seq<Owner>, mem2: seq<Page>, own2: seq<Owner>,
                  d: nat, lo: nat, a: nat, f: nat)
    requires Raised(mem, own, mem1, own1, d, lo, a) && lo <= a < KPAGE
    requires Added(mem1, own1, mem2, own2, d, a, f, Filled(0), 6)
    ensures Within(own, own2, d) && SameData(mem, own, mem2)
    ensures forall g | 0 <= g < |own| && own[g].Free? && own2[g].User? :: Backs(own2[g], d, lo, a + 1)
    ensures forall g | 0 <= g < |own| && own[g].Dir? :: own1[g].Dir?
  {
    AddedFree(mem1, own1, mem2, own2, d, a, f);
    hide Sound, Look, NewPage, Entry;
    assert forall g | 0 <= g < |own| && !own[g].Free? :: own1[g] == own[g];
  }

  lemma AddedFree(mem: seq<Page>, own: seq<Owner>, mem2: seq<Page>, own2: seq<Owner>, d: nat, v: nat, f: nat)
    requires Added(mem, own, mem2, own2, d, v, f, Filled(0), 6)
    ensures f < |own| && own[f].Free? && Backs(own2[f], d, v, v + 1)
    ensures forall g | 0 <= g < |own| && own[g].Free? && own2[g].User? :: g == f
  {
    hide Sound, Look;
    assert Vpn(v / NENT, v % NENT) == v;
    assert v / NENT < KDIR;
  }

  lemma RaisedPages(mem: seq<Page>, own: seq<Owner>, mem1: seq<Page>, own1: seq<Owner>, mem2: seq<Page>,
                    own2: seq<Owner>, d: nat, lo: nat, a: nat, f: nat)
    requires Raised(mem, own, mem1, own1, d, lo, a) && lo <= a < KPAGE && own[d].Dir? && own1[d].Dir?
    requires Added(mem1, own1, mem2, own2, d, a, f, Filled(0), 6) && own[f].Free?
    ensures forall w | lo <= w < a + 1 :: NewPage(own, mem2, own2, d, w)
  {
    hide Sound, Look;
    forall w | lo <= w < a + 1 ensures NewPage(own, mem2, own2, d, w) {
      if w < a {
        assert NewPage(own, mem1, own1, d, w);
        assert Look(mem2, d, w) == Look(mem1, d, w);
      } else {
        assert Look(mem2, d, w) == Entry(f, 6);
      }
    }
  }

  /** Taking the new pages away again leaves only the tables. */
  lemma WithdrawnBy(mem: seq<Page>, own: seq<Owner>, mem1: seq<Page>, own1: seq<Owner>, mem2: seq<Page>,
                    own2: seq<Owner>, d: nat, lo: nat, a: nat, hi: nat)
    requires Sound(mem, own) && Raised(mem, own, mem1, own1, d, lo, a) && lo <= a < hi && own[d].Dir?
    requires Absent(mem, d, lo, hi - lo)
    requires Unmapped(mem1, own1, mem2, own2, d, lo, hi)
    ensures Withdrawn(mem, own, mem2, own2, d)
  {
    forall g | 0 <= g < |own| ensures !Backs(own[g], d, lo, hi) {
      NotBacked(mem, own, d, lo, hi, g);
    }
    hide Sound, Look;
    assert forall g | 0 <= g < |own| && !own[g].Free? :: own1[g] == own[g];
    WithdrawnOwn(own, own1, own2, d, lo, a, hi);
    forall d2, w | 0 <= d2 < |own| && own[d2].Dir? && 0 <= w < NPAGES
      ensures Look(mem2, d2, w) == Look(mem, d2, w)
        || (d2 == d && !Present(Look(mem2, d2, w)) && !Present(Look(mem, d2, w))) {
      assert own1[d2].Dir?;
    }
  }

  lemma NotBacked(mem: seq<Page>, own: seq<Owner>, d: nat, lo: nat, hi: nat, g: nat)
    requires Sound(mem, own) && d < |own| && own[d].Dir? && lo <= hi && Absent(mem, d, lo, hi - lo) && g < |own|
    ensures !Backs(own[g], d, lo, hi)
  {
    if own[g].User? {
      UserLook(mem, own, g);
    }
    hide Sound, Look;
  }

  lemma WithdrawnOwn(own: seq<Owner>, own1: seq<Owner>, own2: seq<Owner>, d: nat, lo: nat, a: nat, hi: nat)
    requires d < |own| == |own1| == |own2| && own[d].Dir? && Within(own, own1, d) && a < hi <= KPAGE
    requires forall g | 0 <= g < |own| :: !Backs(own[g], d, lo, hi)
    requires forall g | 0 <= g < |own| && own[g].Free? && own1[g].User? :: Backs(own1[g], d, lo, a)
    requires forall f | 0 <= f < |own| :: own2[f] == if Backs(own1[f], d, lo, hi) then Free else own1[f]
    ensures Grown(own, own2, d)
  {
  }

  /** The pages allocuvm adds for sizes in bytes. */
  function NewPages(oldsz: int, newsz: int): nat {
    if PageUp(oldsz) < PageUp(newsz) then PageUp(newsz) - PageUp(oldsz) else 0
  }

  /** allocuvm: the new size with its zeroed pages, or 0 and the map as it was; ok tells a new size 0 from a failure. */
  method Allocuvm(k: Kmem, d: nat, oldsz: Word, newsz: Word) returns (r: Word, ghost ok: bool)
    requires Good(k) && d < NF && k.own[d].Dir?
    requires newsz < KPAGE * PGSIZE ==>
      PageUp(oldsz) <= KPAGE ==> Absent(k.mem, d, PageUp(oldsz), NewPages(oldsz, newsz))
    modifies k
    ensures k.Valid() && r == if newsz >= KPAGE * PGSIZE || !ok then 0 else if newsz < oldsz then oldsz else newsz
    ensures newsz >= KPAGE * PGSIZE || newsz < oldsz ==>
              ok && k.mem == old(k.mem) && k.own == old(k.own) && k.free == old(k.free)
    ensures newsz < KPAGE * PGSIZE && newsz >= oldsz ==>
              PageUp(oldsz) <= PageUp(newsz) <= KPAGE
              && Charged(old(k.mem)[d], |old(k.free)|, k.mem[d], |k.free|, NewPages(oldsz, newsz), PageUp(oldsz),
                         PageUp(newsz), ok)
    ensures newsz < KPAGE * PGSIZE && newsz >= oldsz ==>
              if ok then Raised(old(k.mem), old(k.own), k.mem, k.own, d, PageUp(oldsz), PageUp(newsz))
              else Withdrawn(old(k.mem), old(k.own), k.mem, k.own, d)
  {
    hide Chain, Listed, Sound, Look, Raised, Withdrawn, Added, Unmapped, Absent, Charged;
    ok := true;
    if newsz >= KPAGE * PGSIZE {
      return 0, ok;
    }
    if newsz < oldsz {
      return oldsz, ok;
    }
    var a: nat := PageUp(oldsz);
    ghost var lo: nat, hi: nat, mem0, own0 := a, PageUp(newsz), k.mem, k.own;
    ghost var n0 := |k.free|;
    RaisedNone(mem0, own0, d, lo);
    ChargedNone(mem0[d], n0, lo);
    while a * PGSIZE < newsz
      invariant lo <= a <= hi <= KPAGE && k.Valid() && Charged(mem0[d], n0, k.mem[d], |k.free|, a - lo, lo, a, true)
      invariant Raised(mem0, own0, k.mem, k.own, d, lo, a)
      decreases hi - a
    {
      ghost var mem1, own1, n1 := k.mem, k.own, |k.free|;
      RaisedReady(mem0, own0, mem1, own1, d, lo, a, hi);
      var m, f := AddPage(k, d, a, Filled(0), 6);      // PTE_W | PTE_U
      ChargedMore(mem0[d], n0, mem1[d], n1, k.mem[d], |k.free|, a - lo, 1, lo, a, a + 1, m == 0);
      if m != 0 {
        ghost var pg, n := k.mem[d], |k.free|;
        TakeBack(k, d, f, newsz, oldsz, mem0, own0, mem1, own1, a);
        ChargedLess(mem0[d], n0, pg, n, k.mem[d], |k.free|, a - lo + 1, hi - lo, lo, a + 1, hi);
        return 0, false;
      }
      RaisedMore(mem0, own0, mem1, own1, k.mem, k.own, d, lo, a, f);
      a := a + 1;
    }
    return newsz, ok;
  }

  /** mem2 is mem with a free frame f taken and filled, or just mem when f is 0. */
  ghost predicate Taken(mem: seq<Page>, own: seq<Owner>, mem2: seq<Page>, own2: seq<Owner>, f: nat) {
    if f == 0 then mem2 == mem && own2 == own
    else |mem2| == |mem| == |own| && f < |mem| && own[f].Free? && own2 == own[f := Used] && mem2 == mem[f := mem2[f]]
  }

  lemma TakenSound(mem: seq<Page>, own: seq<Owner>, mem2: seq<Page>, own2: seq<Owner>, f: nat)
    requires Sound(mem, own) && Taken(mem, own, mem2, own2, f)
    ensures Sound(mem2, own2)
    ensures |mem2| == |own2| == |mem| == |own|
    ensures forall d | 0 <= d < |own| && own[d].Dir? :: own2[d].Dir?
  {
    if f != 0 { ScratchKeeps(mem, own, mem2, own2); }
  }

  lemma StillUsed(mem: seq<Page>, own: seq<Owner>, mem2: seq<Page>, own2: seq<Owner>, mem3: seq<Page>, own3: seq<Owner>,
                  d: nat, lo: nat, hi: nat, f: nat)
    requires Taken(mem, own, mem2, own2, f) && f != 0 && Unmapped(mem2, own2, mem3, own3, d, lo, hi)
    ensures f < |own3| && own3[f].Used?
  {
  }

  /** The frame in hand plays no part in the unmapping. */
  lemma UnmappedScratch(mem: seq<Page>, own: seq<Owner>, mem2: seq<Page>, own2: seq<Owner>, mem3: seq<Page>,
                        own3: seq<Owner>, mem4: seq<Page>, own4: seq<Owner>, d: nat, lo: nat, hi: nat, f: nat)
    requires Sound(mem, own) && Taken(mem, own, mem2, own2, f) && Unmapped(mem2, own2, mem3, own3, d, lo, hi)
    requires if f == 0 then mem4 == mem3 && own4 == own3 else own4 == own3[f := Free] && |mem4| == |mem3|
    requires forall g | 0 <= g < |mem3| && g != f :: mem4[g] == mem3[g]
    ensures Unmapped(mem, own, mem4, own4, d, lo, hi)
  {
    if f != 0 {
      ScratchKeeps(mem, own, mem2, own2);
      StillUsed(mem, own, mem2, own2, mem3, own3, d, lo, hi, f);
      ScratchKeeps(mem3, own3, mem4, own4);
      assert |mem3| == |own3|;
      hide Sound, Look, Present;
      assert forall d2 | 0 <= d2 < |own| && own[d2].Dir? :: own2[d2].Dir? && own3[d2].Dir?;
      forall g | 0 <= g < |own| ensures own4[g] == if Backs(own[g], d, lo, hi) then Free else own[g] {}
      hide Backs;
    }
  }

  lemma RaisedGood(mem: seq<Page>, own: seq<Owner>, mem1: seq<Page>, own1: seq<Owner>, d: nat, lo: nat, a: nat)
    requires Raised(mem, own, mem1, own1, d, lo, a)
    ensures Sound(mem1, own1) && d < |own1| == |mem1| && own1[d].Dir?
  {
  }

  /** allocuvm's way out: the pages first, then the frame that could not be mapped. */
  method TakeBack(k: Kmem, d: nat, f: nat, newsz: Word, oldsz: Word, ghost mem0: seq<Page>, ghost own0: seq<Owner>,
                  ghost mem1: seq<Page>, ghost own1: seq<Owner>, ghost a: nat)
    requires k.Valid() && d < NF && |own1| == |own0| == NF && oldsz < newsz < KPAGE * PGSIZE
    requires PageUp(oldsz) <= a < PageUp(newsz) && own0[d].Dir?
    requires Sound(mem0, own0) && Raised(mem0, own0, mem1, own1, d, PageUp(oldsz), a)
    requires Absent(mem0, d, PageUp(oldsz), NewPages(oldsz, newsz))
    requires Taken(mem1, own1, k.mem, k.own, f) && (f != 0 ==> f >= k.first)
    modifies k
    ensures k.Valid() && Withdrawn(mem0, own0, k.mem, k.own, d)
  {
    hide Chain, Listed, Sound, Look, Raised, Withdrawn, Unmapped, Absent;
    RaisedGood(mem0, own0, mem1, own1, d, PageUp(oldsz), a);
    TakenSound(mem1, own1, k.mem, k.own, f);
    ghost var mem2, own2 := k.mem, k.own;
    var sz := Deallocuvm(k, d, newsz, oldsz);
    ghost var mem3, own3 := k.mem, k.own;
    if f != 0 {
      StillUsed(mem1, own1, mem2, own2, mem3, own3, d, PageUp(oldsz), PageUp(newsz), f);
      k.Kfree(f);
    }
    UnmappedScratch(mem1, own1, mem2, own2, mem3, own3, k.mem, k.own, d, PageUp(oldsz), PageUp(newsz), f);
    WithdrawnBy(mem0, own0, mem1, own1, k.mem, k.own, d, PageUp(oldsz), a, PageUp(newsz));
  }

  /** copyuvm has copied the pages below a of directory p into the new directory d. */
  ghost predicate Copying(mem: seq<Page>, own: seq<Owner>, mem2: seq<Page>, own2: seq<Owner>, d: nat, p: nat,
                          data: nat, a: nat) {
    && HalfBuilt(mem, own, mem2, own2, d) && a <= KPAGE && p < |own| && own[p].Dir?
    && (forall w | KPAGE <= w < NPAGES :: Look(mem2, d, w) == KernelPte(data, w))
    && (forall w | a <= w < KPAGE :: Look(mem2, d, w) == 0)
    && (forall w | 0 <= w < a :: CopyOf(mem, own, mem2, own2, d, p, w))
  }

  /** Page w of d has the flags and the bytes of page w of p, on a frame that was free. */
  ghost predicate CopyOf(mem: seq<Page>, own: seq<Owner>, mem2: seq<Page>, own2: seq<Owner>, d: nat, p: nat, w: nat)
    requires |mem| == |own| && d < |mem2| && p < |mem| && w < NPAGES
  {
    var e, c := Look(mem, p, w), Look(mem2, d, w);
    && Present(c) && Flags(c) == Flags(e) && Frame(e) < |mem| && Frame(c) < |own| && |own2| == |mem2| == |own|
    && own[Frame(c)].Free? && own2[Frame(c)] == User(d, w / NENT, w % NENT) && mem2[Frame(c)] == mem[Frame(e)]
  }

  lemma CopyNone(mem: seq<Page>, own: seq<Owner>, mem2: seq<Page>, own2: seq<Owner>, d: nat, p: nat, data: nat)
    requires Building(mem, own, mem2, own2, d, data, NPAGES) && p < |own| && own[p].Dir?
    ensures Copying(mem, own, mem2, own2, d, p, data, 0)
  {
    hide HalfBuilt, Look, KernelPte;
  }

  lemma CopyGood(mem: seq<Page>, own: seq<Owner>, mem1: seq<Page>, own1: seq<Owner>, d: nat, p: nat, data: nat, a: nat)
    requires Copying(mem, own, mem1, own1, d, p, data, a) && a < KPAGE && Present(Look(mem, p, a)) && Sound(mem, own)
    ensures Sound(mem1, own1) && d < |own1| == |mem1| && p < |own1| && own1[d].Dir? && own1[p].Dir? && p != d
    ensures Look(mem1, d, a) == 0 && Look(mem1, p, a) == Look(mem, p, a)
    ensures Frame(Look(mem, p, a)) < |mem| && mem1[Frame(Look(mem, p, a))] == mem[Frame(Look(mem, p, a))]
    ensures own1[Frame(Look(mem, p, a))].User?
  {
    LookUser(mem, own, p, a);
    hide Sound, Look, KernelPte, CopyOf;
  }

  lemma CopyMore(mem: seq<Page>, own: seq<Owner>, mem1: seq<Page>, own1: seq<Owner>, mem2: seq<Page>, own2: seq<Owner>,
                 d: nat, p: nat, data: nat, a: nat, f: nat)
    requires Sound(mem, own) && Copying(mem, own, mem1, own1, d, p, data, a) && a < KPAGE && Present(Look(mem, p, a))
    requires Frame(Look(mem, p, a)) < |mem|
    requires Added(mem1, own1, mem2, own2, d, a, f, mem[Frame(Look(mem, p, a))], Flags(Look(mem, p, a)))
    ensures Copying(mem, own, mem2, own2, d, p, data, a + 1)
  {
    CopyHalf(mem, own, mem1, own1, mem2, own2, d, a, f, mem[Frame(Look(mem, p, a))], Flags(Look(mem, p, a)));
    CopyPages(mem, own, mem1, own1, mem2, own2, d, p, data, a, f);
    hide Sound, KernelPte, CopyOf, HalfBuilt, Look, Entry;
    assert own1[d].Dir?;
  }

  lemma CopyHalf(mem: seq<Page>, own: seq<Owner>, mem1: seq<Page>, own1: seq<Owner>, mem2: seq<Page>, own2: seq<Owner>,
                 d: nat, a: nat, f: nat, page: Page, perm: nat)
    requires HalfBuilt(mem, own, mem1, own1, d) && Added(mem1, own1, mem2, own2, d, a, f, page, perm)
    ensures HalfBuilt(mem, own, mem2, own2, d) && own1[d].Dir?
  {
    hide Sound, Look, Entry;
    assert forall g | 0 <= g < |own| && !own[g].Free? :: own1[g] == own[g] && g != d;
  }

  lemma CopyPages(mem: seq<Page>, own: seq<Owner>, mem1: seq<Page>, own1: seq<Owner>, mem2: seq<Page>, own2: seq<Owner>,
                  d: nat, p: nat, data: nat, a: nat, f: nat)
    requires Sound(mem, own) && Copying(mem, own, mem1, own1, d, p, data, a) && a < KPAGE && Present(Look(mem, p, a))
    requires Frame(Look(mem, p, a)) < |mem|
    requires Added(mem1, own1, mem2, own2, d, a, f, mem[Frame(Look(mem, p, a))], Flags(Look(mem, p, a)))
    ensures |mem| == |own| && d < |mem2| && p < |mem|
    ensures forall w | 0 <= w < a + 1 :: CopyOf(mem, own, mem2, own2, d, p, w)
  {
    HalfFree(mem, own, mem1, own1, d);
    hide Sound, Look, KernelPte, Present, Frame, Flags, Entry, SameData, CopyOf, HalfBuilt, Added;
    forall w | 0 <= w < a + 1 ensures CopyOf(mem, own, mem2, own2, d, p, w) {
      if w < a {
        CopyStays(mem, own, mem1, own1, mem2, own2, d, p, w, a, f, mem[Frame(Look(mem, p, a))], Flags(Look(mem, p, a)));
      } else {
        CopyNew(mem, own, mem1, own1, mem2, own2, d, p, a, f);
      }
    }
  }

  lemma HalfFree(mem: seq<Page>, own: seq<Owner>, mem1: seq<Page>, own1: seq<Owner>, d: nat)
    requires HalfBuilt(mem, own, mem1, own1, d)
    ensures |mem1| == |own1| == |mem| == |own| && d < |mem| && own1[d].Dir?
    ensures forall g | 0 <= g < |own| && own1[g].Free? :: own[g].Free?
  {
    hide Look;
  }

  /** A page copied before stays. */
  lemma CopyStays(mem: seq<Page>, own: seq<Owner>, mem1: seq<Page>, own1: seq<Owner>, mem2: seq<Page>,
                  own2: seq<Owner>, d: nat, p: nat, w: nat, a: nat, f: nat, page: Page, perm: nat)
    requires |mem1| == |own1| == |mem| == |own| && d < |mem| && p < |mem| && w < a < KPAGE && own1[d].Dir?
    requires Added(mem1, own1, mem2, own2, d, a, f, page, perm) && CopyOf(mem, own, mem1, own1, d, p, w)
    ensures |mem2| == |mem| && CopyOf(mem, own, mem2, own2, d, p, w)
  {
    hide Sound, Look, Entry, Present, Flags, Frame;
    assert Look(mem2, d, w) == Look(mem1, d, w);
  }

  lemma CopyNew(mem: seq<Page>, own: seq<Owner>, mem1: seq<Page>, own1: seq<Owner>, mem2: seq<Page>, own2: seq<Owner>,
                d: nat, p: nat, a: nat, f: nat)
    requires |mem1| == |own1| == |mem| == |own| && d < |mem| && p < |mem| && a < KPAGE && own1[d].Dir?
    requires Present(Look(mem, p, a)) && Frame(Look(mem, p, a)) < |mem|
    requires Added(mem1, own1, mem2, own2, d, a, f, mem[Frame(Look(mem, p, a))], Flags(Look(mem, p, a)))
    requires forall g | 0 <= g < |own| && own1[g].Free? :: own[g].Free?
    ensures |mem2| == |mem| && CopyOf(mem, own, mem2, own2, d, p, a)
  {
    hide Sound, Look;
  }

  /** The frame in hand plays no part either. */
  lemma HalfScratch(mem: seq<Page>, own: seq<Owner>, mem1: seq<Page>, own1: seq<Owner>, mem2: seq<Page>,
                    own2: seq<Owner>, mem3: seq<Page>, own3: seq<Owner>, d: nat, f: nat)
    requires HalfBuilt(mem, own, mem1, own1, d) && Taken(mem1, own1, mem2, own2, f)
    requires if f == 0 then mem3 == mem2 && own3 == own2 else own3 == own2[f := Free] && |mem3| == |mem2|
    requires forall g | 0 <= g < |mem2| && g != f :: mem3[g] == mem2[g]
    ensures HalfBuilt(mem, own, mem3, own3, d)
  {
    if f != 0 {
      assert own3 == own1;
      ScratchKeeps(mem1, own1, mem3, own3);
      hide Sound, Look;
      assert forall g | 0 <= g < |own| && !own[g].Free? :: own1[g] == own[g];
    }
  }

  /** copyuvm: the child's directory, or 0 and everything as it was. */
  method Copyuvm(k: Kmem, p: nat, sz: Word, data: nat) returns (d: nat)
    requires Good(k) && p < NF && k.own[p].Dir? && sz <= KPAGE * PGSIZE && LINKPAGE < data < TOPPAGE
    requires forall w | 0 <= w < PageUp(sz) :: Present(Look(k.mem, p, w))
    modifies k
    ensures k.Valid() && if d == 0 then |old(k.free)| < Frames(PageUp(sz))
                         else d < NF && Paid(k.mem[d], |k.free|, |old(k.free)|, PageUp(sz))
    ensures if d == 0 then Restored(old(k.mem), old(k.own), k.mem, k.own)
            else Copying(old(k.mem), old(k.own), k.mem, k.own, d, p, data, PageUp(sz))
  {
    hide Chain, Listed, Sound, Look, Building, HalfBuilt, Restored, Copying, Gone, Added, Present, Charged, Paid;
    ghost var mem0, own0, n0 := k.mem, k.own, |k.free|;
    FramesMore(0, PageUp(sz));
    d := Setupkvm(k, data);
    if d == 0 {
      return;
    }
    CopyNone(mem0, own0, k.mem, k.own, d, p, data);
    var i := 0;
    while i * PGSIZE < sz
      invariant 0 <= i <= PageUp(sz) && k.Valid() && 0 < d < NF && Paid(k.mem[d], |k.free|, n0, i)
      invariant Copying(mem0, own0, k.mem, k.own, d, p, data, i)
    {
      ghost var mem1, own1, n1 := k.mem, k.own, |k.free|;
      CopyGood(mem0, own0, mem1, own1, d, p, data, i);
      var t := Walkpgdir(k, p, i, false);
      var pte := EntryIn(k, p, i, t);
      CopyAbsent(k.mem, d, i);
      var r, f := AddPage(k, d, i, k.mem[Frame(pte)], Flags(pte));
      PaidMore(mem1[d], n1, k.mem[d], |k.free|, n0, i, i + 1, r == 0);
      FramesMore(i + 1, PageUp(sz));
      if r != 0 {
        CopyHalfGood(mem0, own0, mem1, own1, d, p, data, i);
        ghost var mem2, own2 := k.mem, k.own;
        if f != 0 {
          k.Kfree(f);
        }
        HalfScratch(mem0, own0, mem1, own1, mem2, own2, k.mem, k.own, d, f);
        HalfGood(mem0, own0, k.mem, k.own, d);
        ghost var mem3, own3 := k.mem, k.own;
        Freevm(k, d);
        BuildingUndone(mem0, own0, mem3, own3, k.mem, k.own, d);
        return 0;
      }
      CopyMore(mem0, own0, mem1, own1, k.mem, k.own, d, p, data, i, f);
      i := i + 1;
    }
  }

  lemma CopyAbsent(mem: seq<Page>, d: nat, i: nat)
    requires d < |mem| && i < NPAGES && Look(mem, d, i) == 0
    ensures !Present(Look(mem, d, i))
  {
  }

  lemma CopyHalfGood(mem: seq<Page>, own: seq<Owner>, mem1: seq<Page>, own1: seq<Owner>, d: nat, p: nat, data: nat,
                     a: nat)
    requires Copying(mem, own, mem1, own1, d, p, data, a)
    ensures HalfBuilt(mem, own, mem1, own1, d)
  {
  }

  /** The entry a pte pointer leads to; a present page has one. */
  method EntryIn(k: Kmem, d: nat, v: nat, t: nat) returns (e: Word)
    requires d < |k.mem| && v < NPAGES && Present(Look(k.mem, d, v))
    requires t == 0 ==> Look(k.mem, d, v) == 0
    requires t != 0 ==> t < |k.mem| && k.mem[t][v % NENT] == Look(k.mem, d, v)
    ensures e == Look(k.mem, d, v)
  {
    e := k.mem[t][v % NENT];
  }

  /** fork's child d against its parent p: the same user pages with the same flags and bytes, the same kernel, and not
      one user frame shared. */
  ghost predicate Forked(mem: seq<Page>, d: nat, p: nat, n: nat) {
    && d < |mem| && p < |mem| && n <= KPAGE
    && (forall w | KPAGE <= w < NPAGES :: Look(mem, d, w) == Look(mem, p, w))
    && (forall w | n <= w < KPAGE :: !Present(Look(mem, d, w)))
    && (forall w | 0 <= w < n :: SamePage(mem, Look(mem, d, w), Look(mem, p, w)))
    && (forall w, x | 0 <= w < n && 0 <= x < KPAGE && Present(Look(mem, p, x)) ::
      Frame(Look(mem, d, w)) != Frame(Look(mem, p, x)))
  }

  ghost predicate SamePage(mem: seq<Page>, c: Word, e: Word) {
    Present(c) && Present(e) && Flags(c) == Flags(e) && Frame(c) < |mem| && Frame(e) < |mem|
      && mem[Frame(c)] == mem[Frame(e)]
  }

  lemma ForkCopy(mem: seq<Page>, own: seq<Owner>, mem2: seq<Page>, own2: seq<Owner>, d: nat, p: nat, data: nat, n: nat)
    requires Sound(mem, own) && Copying(mem, own, mem2, own2, d, p, data, n) && KernelMap(mem, p, data)
    requires forall w | 0 <= w < n :: Present(Look(mem, p, w))
    ensures Forked(mem2, d, p, n)
  {
    hide Sound, Look, KernelPte;
    assert forall w | 0 <= w < NPAGES :: Look(mem2, p, w) == Look(mem, p, w);
    forall w, x | 0 <= w < n && 0 <= x < KPAGE && Present(Look(mem2, p, x))
      ensures Frame(Look(mem2, d, w)) != Frame(Look(mem2, p, x)) {
      LookUser(mem, own, p, x);
      assert CopyOf(mem, own, mem2, own2, d, p, w);
    }
    forall w | 0 <= w < n ensures SamePage(mem2, Look(mem2, d, w), Look(mem2, p, w)) {
      LookUser(mem, own, p, w);
      assert CopyOf(mem, own, mem2, own2, d, p, w);
    }
  }

  /** The user may load from and store to the child's pages exactly as to the parent's. */
  lemma ForkedAccess(mem: seq<Page>, own: seq<Owner>, d: nat, p: nat, n: nat, v: nat, write: bool)
    requires Sound(mem, own) && Forked(mem, d, p, n) && own[d].Dir? && own[p].Dir? && (v < n || KPAGE <= v < NPAGES)
    ensures UserMay(mem, d, v, write) <==> UserMay(mem, p, v, write)
  {
    EntryDecides(mem, own, d, v, write);
    EntryDecides(mem, own, p, v, write);
    hide Sound, Look, UserMay, Grants, Frame;
    if v < n {
      assert SamePage(mem, Look(mem, d, v), Look(mem, p, v));
      SameBits(Look(mem, d, v), Look(mem, p, v), write);
    }
  }

  /** Access depends on the flags alone. */
  lemma SameBits(c: Word, e: Word, write: bool)
    requires Flags(c) == Flags(e)
    ensures Grants(c, write) == Grants(e, write)
  {
    LowBits(c);
    LowBits(e);
  }

  lemma LowBits(e: Word)
    ensures e % 2 == Flags(e) % 2 && e / 2 % 2 == Flags(e) / 2 % 2 && e / 4 % 2 == Flags(e) / 4 % 2
  {
    var q, r := e / 4096, e % 4096;
    HalfOf(e, 2048 * q + r / 2);
    QuarterOf(e, 1024 * q + r / 4);
    EvenMore(2048 * q, r, 1024 * q);
    EvenMore(2048 * q, r / 2, 1024 * q);
    EvenMore(1024 * q, r / 4, 512 * q);
    EvenMore(4096 * q, r, 2048 * q);
  }

  lemma EvenMore(a: int, b: int, h: int)
    requires a == 2 * h
    ensures (a + b) % 2 == b % 2
  {
  }

  /** The user may load from and store to every page allocuvm adds. */
  lemma RaisedAccess(mem: seq<Page>, own: seq<Owner>, mem2: seq<Page>, own2: seq<Owner>, d: nat, lo: nat, a: nat,
                     w: nat, write: bool)
    requires Raised(mem, own, mem2, own2, d, lo, a) && lo <= w < a
    ensures UserMay(mem2, d, w, write)
  {
    EntryDecides(mem2, own2, d, w, write);
    hide Sound, Look, UserMay, Grants, Frame;
    assert NewPage(own, mem2, own2, d, w);
    SameBits(Look(mem2, d, w), 7, write);
    assert Grants(7, write) by { AllBits(7); }
  }

  /** When ownership is restored, so is the set of free frames. */
  lemma FreeSetRestored(own: seq<Owner>, free: seq<nat>, free2: seq<nat>, first: nat)
    requires Listed(own, free, first) && Listed(own, free2, first)
    ensures forall f :: f in free <==> f in free2
    ensures |free| == |free2|
  {
    forall f ensures f in free <==> f in free2 {
      if f in free { assert own[f].Free?; }
      if f in free2 { assert own[f].Free?; }
    }
    var s, s2 := set f | f in free, set f | f in free2;
    assert s == s2;
    DistinctSize(free, s);
    DistinctSize(free2, s2);
  }

  lemma {:induction false} DistinctSize(q: seq<nat>, s: set<nat>)
    requires (forall i, j | 0 <= i < j < |q| :: q[i] != q[j]) && s == set f | f in q
    ensures |s| == |q|
    decreases |q|
  {
    if q != [] {
      var t := set f | f in q[1..];
      assert q == [q[0]] + q[1..];
      assert s == t + {q[0]};
      DistinctSize(q[1..], t);
    }
  }

  /** exec builds a new directory with setupkvm and calls of allocuvm; each step, done or failed, touches nothing
      else. */
  lemma ExecGrows(mem: seq<Page>, own: seq<Owner>, mem1: seq<Page>, own1: seq<Owner>, mem2: seq<Page>, own2: seq<Owner>,
                  d: nat, lo: nat, a: nat)
    requires HalfBuilt(mem, own, mem1, own1, d)
    requires Raised(mem1, own1, mem2, own2, d, lo, a) || Withdrawn(mem1, own1, mem2, own2, d)
    ensures HalfBuilt(mem, own, mem2, own2, d)
  {
    hide Sound, Look, Present, NewPage, Backs;
    assert forall g | 0 <= g < |own| && !own[g].Free? :: own1[g] == own[g] && g != d;
  }

  /** exec's way out, freevm, then restores every frame, map and page. */
  lemma ExecFails(mem: seq<Page>, own: seq<Owner>, mem1: seq<Page>, own1: seq<Owner>, mem2: seq<Page>,
                  own2: seq<Owner>, d: nat)
    requires Sound(mem, own) && HalfBuilt(mem, own, mem1, own1, d) && Gone(mem1, own1, mem2, own2, d)
    ensures Restored(mem, own, mem2, own2) && forall f | 0 <= f < |own| :: own2[f].Free? <==> own[f].Free?
  {
    BuildingUndone(mem, own, mem1, own1, mem2, own2, d);
  }

  /** PTE_P and PTE_U. */
  predicate UserPte(e: Word) { Present(e) && e / 4 % 2 == 1 }

  /** PTE_W. */
  predicate Writable(e: Word) { e / 2 % 2 == 1 }

  predicate Grants(e: Word, write: bool) { UserPte(e) && (write ==> Writable(e)) }

  /** The processor lets the user load from page v, or store to it: the directory's entry and the table's both say
      so. */
  predicate UserMay(mem: seq<Page>, d: nat, v: nat, write: bool)
    requires d < |mem| && v < NPAGES
  {
    var pde := mem[d][v / NENT];
    Grants(pde, write) && Frame(pde) < |mem| && Grants(mem[Frame(pde)][v % NENT], write)
  }

  /** Directory entries withhold nothing, so the table's entry decides. */
  lemma EntryDecides(mem: seq<Page>, own: seq<Owner>, d: nat, v: nat, write: bool)
    requires Sound(mem, own) && d < |mem| && own[d].Dir? && v < NPAGES
    ensures UserMay(mem, d, v, write) <==> Grants(Look(mem, d, v), write)
  {
    TableFacts(mem, own, d, v);
    if Present(mem[d][v / NENT]) {
      AllBits(mem[d][v / NENT]);
    }
  }

  lemma AllBits(e: Word)
    requires Passing(e)
    ensures UserPte(e) && Writable(e)
  {
    var q := e / 8;
    assert e == 8 * q + 7;
    QuarterOf(e, 2 * q + 1);
    HalfOf(e, 4 * q + 3);
    EvenMore(8 * q, 7, 4 * q);
    EvenMore(2 * q, 1, q);
    EvenMore(4 * q, 3, 2 * q);
  }

  lemma QuarterOf(x: int, k: int)
    requires 4 * k <= x < 4 * k + 4
    ensures x / 4 == k
  {
  }

  lemma HalfOf(x: int, k: int)
    requires 2 * k <= x < 2 * k + 2
    ensures x / 2 == k
  {
  }

  /** One page of d is out of the user's reach, and nothing else has changed. */
  ghost predicate Cleared(mem: seq<Page>, own: seq<Owner>, mem2: seq<Page>, d: nat, v: nat) {
    && Sound(mem2, own) && |mem2| == |mem| == |own| && SameData(mem, own, mem2) && d < |mem| && v < KPAGE
    && forall d2, w | 0 <= d2 < |own| && own[d2].Dir? && 0 <= w < NPAGES ::
         Look(mem2, d2, w) == if d2 == d && w == v then WithoutUser(Look(mem, d, v)) else Look(mem, d2, w)
  }

  /** clearpteu: the page stays, out of the user's reach. */
  method Clearpteu(k: Kmem, d: nat, v: nat)
    requires Good(k) && d < NF && k.own[d].Dir? && v < KPAGE && Present(Look(k.mem, d, v))
    modifies k
    ensures Good(k) && k.own == old(k.own) && k.free == old(k.free)
    ensures Cleared(old(k.mem), k.own, k.mem, d, v) && !UserPte(Look(k.mem, d, v))
  {
    hide Chain, Listed;
    ghost var mem0, own0 := k.mem, k.own;
    var t := Walkpgdir(k, d, v, false);
    var e := EntryIn(k, d, v, t);
    TableRow(k.own, t, d, v);
    SetLook(mem0, own0, t, v % NENT, WithoutUser(e));
    SetFlags(mem0, own0, t, v % NENT, WithoutUser(e));
    hide Sound, Look;
    k.Set(t, k.mem[t][v % NENT := WithoutUser(e)]);
    forall d2, w | 0 <= d2 < NF && own0[d2].Dir? && 0 <= w < NPAGES
      ensures Look(k.mem, d2, w) == if d2 == d && w == v then WithoutUser(Look(mem0, d, v)) else Look(mem0, d2, w) {
      VpnOnce(w, v / NENT, v % NENT);
      VpnOnce(v, v / NENT, v % NENT);
    }
  }

  /** An entry with PTE_U cleared. */
  function WithoutUser(e: Word): (r: Word)
    ensures Present(r) == Present(e) && Frame(r) == Frame(e) && r / 4 % 2 == 0
  {
    if e / 4 % 2 == 1 then
      UserBit(e);
      e - 4
    else e
  }

  lemma UserBit(e: Word)
    requires e / 4 % 2 == 1
    ensures e >= 4 && (e - 4) % 2 == e % 2 && (e - 4) / 4096 == e / 4096 && (e - 4) / 4 % 2 == 0
  {
    var q, r := e / 4, e % 4;
    assert e - 4 == 4 * (q - 1) + r;
    UserBitPage(q, r);
  }

  lemma UserBitPage(q: int, r: int)
    requires q >= 1 && q % 2 == 1 && 0 <= r < 4
    ensures (4 * q + r) / 4096 == (4 * (q - 1) + r) / 4096
  {
    var h, m := q / 1024, q % 1024;
    assert m % 2 == 1;
    assert 4 * q + r == 4096 * h + (4 * m + r);
    assert 4 * (q - 1) + r == 4096 * h + (4 * (m - 1) + r);
  }

  lemma TableRow(own: seq<Owner>, t: nat, d: nat, v: nat)
    requires t < |own| && v < KPAGE && own[t] == Table(d, v / NENT)
    ensures own[t].i < KDIR && own[t].i < NENT
  {
  }
}
