/** exec.c: the new image, built in a directory of its own and taken on only when everything is in place. */
module Exec {
  import opened Blocks
  import opened Kalloc
  import opened PageMap
  import opened FrameCount
  import opened Vm
  import opened UserSpace
  import opened UserBytes
  import opened ArgStack

  /** A program header as read from the file: whether it could be read, whether it is to be loaded, and what the file
      has from its offset on. */
  datatype Seg = Seg(read: bool, load: bool, filesz: Word, memsz: Word, vaddr: Word, data: seq<Byte>)

  /** The image's size after one more segment. */
  function Grow(sz: nat, s: Seg): nat {
    if s.load && s.vaddr + s.memsz >= sz then s.vaddr + s.memsz else sz
  }

  function Size(segs: seq<Seg>): nat {
    if segs == [] then 0 else Grow(Size(segs[..|segs| - 1]), segs[|segs| - 1])
  }

  /** What exec demands of a segment; size 0 is not told from a failure of allocuvm. */
  predicate Loads(sz: nat, s: Seg) {
    s.read && (s.load ==>
      s.filesz <= s.memsz && s.vaddr + s.memsz < USERTOP && Grow(sz, s) > 0 && s.vaddr % PGSIZE == 0
        && s.filesz <= |s.data|)
  }

  predicate Loadable(segs: seq<Seg>) {
    segs == [] || (Loadable(segs[..|segs| - 1]) && Loads(Size(segs[..|segs| - 1]), segs[|segs| - 1]))
  }

  /** The byte the segments put at address a; later ones go over earlier ones, and what none covers is zero. */
  function ImageByte(segs: seq<Seg>, a: nat): Byte {
    if segs == [] then 0
    else
      var s := segs[|segs| - 1];
      if s.load && s.vaddr <= a < s.vaddr + s.filesz && a - s.vaddr < |s.data| then s.data[a - s.vaddr]
        else ImageByte(segs[..|segs| - 1], a)
  }

  /** The size of the whole image, with the guard page and the stack page. */
  function FullSize(segs: seq<Seg>): nat { PageUp(Size(segs)) * PGSIZE + 2 * PGSIZE }

  lemma {:induction false} LoadableSize(segs: seq<Seg>)
    requires Loadable(segs)
    ensures Size(segs) < USERTOP
    decreases |segs|
  {
    if segs != [] { LoadableSize(segs[..|segs| - 1]); }
  }

  lemma {:induction false} LoadablePrefix(segs: seq<Seg>, i: nat)
    requires Loadable(segs) && i <= |segs|
    ensures Loadable(segs[..i])
    decreases |segs|
  {
    if i == |segs| {
      assert segs[..i] == segs;
    } else {
      LoadablePrefix(segs[..|segs| - 1], i);
      assert segs[..|segs| - 1][..i] == segs[..i];
    }
  }

  lemma {:induction false} SizeMore(segs: seq<Seg>, i: nat)
    requires i <= |segs|
    ensures Size(segs[..i]) <= Size(segs) && Frames(PageUp(Size(segs[..i]))) <= Frames(PageUp(Size(segs)))
    decreases |segs|
  {
    if i == |segs| {
      assert segs[..i] == segs;
    } else {
      SizeMore(segs[..|segs| - 1], i);
      assert segs[..|segs| - 1][..i] == segs[..i];
    }
    FramesMore(PageUp(Size(segs[..i])), PageUp(Size(segs)));
  }

  lemma SizeNext(segs: seq<Seg>, i: nat)
    requires i < |segs|
    ensures Size(segs[..i + 1]) == Grow(Size(segs[..i]), segs[i])
    ensures Loadable(segs[..i + 1]) == (Loadable(segs[..i]) && Loads(Size(segs[..i]), segs[i]))
  {
    assert segs[..i + 1][..i] == segs[..i];
  }

  /** A page for the user to read and write: PTE_P, PTE_W and PTE_U. */
  predicate Open(e: Word) { Present(e) && Flags(e) == 7 }

  lemma OpenUser(e: Word)
    requires Open(e)
    ensures UserPte(e)
  {
    var q := e / 4096;
    QuarterOf(e, 1024 * q + 1);
    OddOf(1024 * q + 1, 512 * q);
  }

  lemma OddOf(k: int, j: int)
    requires k == 2 * j + 1
    ensures k % 2 == 1
  {
  }

  /** The new directory d maps the kernel and n open user pages, and nothing that was there before has been touched. */
  ghost predicate Laid(mem: seq<Page>, own: seq<Owner>, mem2: seq<Page>, own2: seq<Owner>, d: nat, data: nat, n: nat) {
    && HalfBuilt(mem, own, mem2, own2, d) && n <= KPAGE && KernelMap(mem2, d, data)
    && (forall w | 0 <= w < n :: Open(Look(mem2, d, w)))
    && (forall w | n <= w < KPAGE :: !Present(Look(mem2, d, w)))
  }

  /** The user's bytes are those of the segments. */
  ghost predicate Holds(mem: seq<Page>, d: nat, segs: seq<Seg>) {
    d < |mem| && forall a | 0 <= a < USERTOP :: UserByte(mem, d, a) == ImageByte(segs, a)
  }

  lemma LaidNone(mem: seq<Page>, own: seq<Owner>, mem2: seq<Page>, own2: seq<Owner>, d: nat, data: nat)
    requires Building(mem, own, mem2, own2, d, data, NPAGES)
    ensures Laid(mem, own, mem2, own2, d, data, 0) && Holds(mem2, d, [])
  {
    assert d < |mem2| by { HalfGood(mem, own, mem2, own2, d); }
    hide HalfBuilt, Look, KernelPte;
  }

  lemma LaidParts(mem: seq<Page>, own: seq<Owner>, mem2: seq<Page>, own2: seq<Owner>, d: nat, data: nat, n: nat)
    requires Laid(mem, own, mem2, own2, d, data, n)
    ensures HalfBuilt(mem, own, mem2, own2, d) && Sound(mem2, own2) && d < |own2| == |mem2| && own2[d].Dir?
    ensures n <= KPAGE
    ensures forall w | 0 <= w < n :: Present(Look(mem2, d, w))
  {
    hide Sound, Look;
  }

  lemma LaidAbsent(mem: seq<Page>, own: seq<Owner>, mem2: seq<Page>, own2: seq<Owner>, d: nat, data: nat, n: nat,
                   m: nat)
    requires Laid(mem, own, mem2, own2, d, data, n) && n <= m <= KPAGE
    ensures d < |mem2| && Absent(mem2, d, n, m - n)
  {
    HalfGood(mem, own, mem2, own2, d);
    hide Sound, Look, HalfBuilt;
  }

  /** A store into d's user pages touches nothing that was there before. */
  lemma StoreHalf(mem: seq<Page>, own: seq<Owner>, mem1: seq<Page>, own1: seq<Owner>, mem2: seq<Page>, d: nat)
    requires Sound(mem, own) && HalfBuilt(mem, own, mem1, own1, d) && Stored(mem1, own1, mem2, d)
    ensures HalfBuilt(mem, own, mem2, own1, d)
  {
    forall g | 0 <= g < |own| && own[g].User? ensures own[g].d != d { UserLook(mem, own, g); }
    hide Sound, Look;
    assert forall g | 0 <= g < |own| && !own[g].Free? :: own1[g] == own[g];
  }

  lemma StoreLaid(mem: seq<Page>, own: seq<Owner>, mem1: seq<Page>, own1: seq<Owner>, mem2: seq<Page>, d: nat,
                  data: nat, n: nat)
    requires Sound(mem, own) && Laid(mem, own, mem1, own1, d, data, n) && Stored(mem1, own1, mem2, d)
    ensures Laid(mem, own, mem2, own1, d, data, n)
  {
    StoreHalf(mem, own, mem1, own1, mem2, d);
    LaidParts(mem, own, mem1, own1, d, data, n);
    TablesStay(mem1, own1, mem2, d);
    hide Sound, Look, HalfBuilt, KernelPte, Present, Stored;
  }

  lemma GrowLaid(mem: seq<Page>, own: seq<Owner>, mem1: seq<Page>, own1: seq<Owner>, mem2: seq<Page>, own2: seq<Owner>,
                 d: nat, data: nat, n: nat, m: nat)
    requires Laid(mem, own, mem1, own1, d, data, n) && Raised(mem1, own1, mem2, own2, d, n, m) && n <= m
    ensures Laid(mem, own, mem2, own2, d, data, m)
  {
    ExecGrows(mem, own, mem1, own1, mem2, own2, d, n, m);
    LaidParts(mem, own, mem1, own1, d, data, n);
    hide Sound, Look, HalfBuilt, KernelPte, Present, SameData, Within, Backs;
    forall w | 0 <= w < m ensures Open(Look(mem2, d, w)) {
      if w >= n { assert NewPage(own1, mem2, own2, d, w); }
    }
  }

  /** New pages hold zeros, as absent ones read. */
  lemma GrowBytes(mem: seq<Page>, own: seq<Owner>, mem2: seq<Page>, own2: seq<Owner>, d: nat, n: nat, m: nat)
    requires Sound(mem, own) && d < |mem| && own[d].Dir? && n <= m <= KPAGE
    requires Raised(mem, own, mem2, own2, d, n, m) && Absent(mem, d, n, m - n)
    ensures d < |mem2| && forall a | 0 <= a < USERTOP :: UserByte(mem2, d, a) == UserByte(mem, d, a)
  {
    forall a | 0 <= a < USERTOP ensures UserByte(mem2, d, a) == UserByte(mem, d, a) {
      var w := a / PGSIZE;
      if Present(Look(mem, d, w)) { LookUser(mem, own, d, w); }
      if n <= w < m {
        assert NewPage(own, mem2, own2, d, w);
        ZeroByte(a % PGSIZE);
      }
      hide Sound, Look, PageByte, NewPage, Backs;
    }
  }

  lemma ZeroByte(o: nat)
    requires o < PGSIZE
    ensures PageByte(Filled(0), o) == 0
  {
  }

  /** allocuvm on the new directory, as exec calls it. */
  method Extend(k: Kmem, d: nat, data: nat, sz: nat, newsz: Word, ghost mem0: seq<Page>, ghost own0: seq<Owner>,
                ghost n0: nat)
    returns (r: Word)
    requires k.Valid() && sz <= USERTOP && |own0| == NF && Laid(mem0, own0, k.mem, k.own, d, data, PageUp(sz))
    requires d < NF && Paid(k.mem[d], |k.free|, n0, PageUp(sz))
    modifies k
    ensures k.Valid() && HalfBuilt(mem0, own0, k.mem, k.own, d)
    ensures r != 0 ==> newsz < USERTOP && r == (if newsz < sz then sz else newsz)
    ensures r != 0 ==> Paid(k.mem[d], |k.free|, n0, PageUp(r))
    ensures r != 0 ==> Laid(mem0, own0, k.mem, k.own, d, data, PageUp(r)) && SameBytes(old(k.mem), k.mem, d)
    ensures r == 0 ==> newsz >= USERTOP || (newsz == 0 && sz == 0) || (newsz >= sz && n0 < Frames(PageUp(newsz)))
  {
    hide Chain, Listed, Sound, Look, Laid, HalfBuilt, Raised, Withdrawn, Absent, UserByte, Charged, Paid;
    ghost var mem1, own1 := k.mem, k.own;
    LaidParts(mem0, own0, mem1, own1, d, data, PageUp(sz));
    if newsz < USERTOP && newsz >= sz {
      UpMore(sz, newsz);
      LaidAbsent(mem0, own0, mem1, own1, d, data, PageUp(sz), PageUp(newsz));
    } else if newsz < USERTOP {
      UpMore(newsz, sz);
      LaidAbsent(mem0, own0, mem1, own1, d, data, PageUp(sz), PageUp(sz));
    }
    ghost var ok, n1 := true, |k.free|;
    r, ok := Allocuvm(k, d, sz, newsz);
    if newsz < USERTOP && newsz >= sz {
      PaidMore(mem1[d], n1, k.mem[d], |k.free|, n0, PageUp(sz), PageUp(newsz), ok);
      ExtendHalf(mem0, own0, mem1, own1, k.mem, k.own, d, PageUp(sz), PageUp(newsz), ok);
      if ok {
        GrowLaid(mem0, own0, mem1, own1, k.mem, k.own, d, data, PageUp(sz), PageUp(newsz));
        GrowBytes(mem1, own1, k.mem, k.own, d, PageUp(sz), PageUp(newsz));
      }
    }
  }

  lemma ExtendHalf(mem: seq<Page>, own: seq<Owner>, mem1: seq<Page>, own1: seq<Owner>, mem2: seq<Page>,
                   own2: seq<Owner>, d: nat, lo: nat, hi: nat, ok: bool)
    requires HalfBuilt(mem, own, mem1, own1, d)
    requires if ok then Raised(mem1, own1, mem2, own2, d, lo, hi) else Withdrawn(mem1, own1, mem2, own2, d)
    ensures HalfBuilt(mem, own, mem2, own2, d)
  {
    ExecGrows(mem, own, mem1, own1, mem2, own2, d, lo, hi);
  }

  lemma UpMore(a: nat, b: nat)
    requires a <= b <= USERTOP
    ensures PageUp(a) <= PageUp(b) <= KPAGE && b <= PageUp(b) * PGSIZE
    ensures a % PGSIZE == 0 ==> PageUp(a) == a / PGSIZE
  {
  }

  /** Every user byte reads as before. */
  ghost predicate SameBytes(mem: seq<Page>, mem2: seq<Page>, d: nat) {
    d < |mem| && d < |mem2| && forall a | 0 <= a < USERTOP :: UserByte(mem2, d, a) == UserByte(mem, d, a)
  }

  /** A round of the loop over the program headers: the segment in place, or none of the caller's frames touched. */
  method LoadSeg(k: Kmem, d: nat, data: nat, s: Seg, sz: Word, ghost segs: seq<Seg>, ghost mem0: seq<Page>,
                 ghost own0: seq<Owner>, ghost n0: nat)
    returns (ok: bool, r: Word)
    requires k.Valid() && |own0| == NF && Sound(mem0, own0) && sz == Size(segs) < USERTOP
    requires d < NF && Paid(k.mem[d], |k.free|, n0, PageUp(sz))
    requires Laid(mem0, own0, k.mem, k.own, d, data, PageUp(sz)) && Holds(k.mem, d, segs)
    modifies k
    ensures k.Valid() && HalfBuilt(mem0, own0, k.mem, k.own, d)
    ensures ok ==> Loads(sz, s) && r == Grow(sz, s) < USERTOP && Paid(k.mem[d], |k.free|, n0, PageUp(r))
    ensures ok ==> Laid(mem0, own0, k.mem, k.own, d, data, PageUp(r)) && Holds(k.mem, d, segs + [s])
    ensures !ok ==> !Loads(sz, s) || n0 < Frames(PageUp(Grow(sz, s)))
  {
    hide Chain, Listed, Sound, Look, Laid, HalfBuilt, Holds, Stored, Copied, SameBytes, Present, Paid, Frames;
    LaidParts(mem0, own0, k.mem, k.own, d, data, PageUp(sz));
    r := sz;
    if !s.read {
      return false, r;
    }
    if !s.load {
      HoldsSkip(k.mem, d, segs, s);
      return true, r;
    }
    if s.memsz < s.filesz {
      return false, r;
    }
    if (s.vaddr + s.memsz) % UINT < s.vaddr {
      return false, r;
    }
    ghost var mem1 := k.mem;
    r := Extend(k, d, data, sz, (s.vaddr + s.memsz) % UINT, mem0, own0, n0);
    if r == 0 {
      return false, r;
    }
    if s.vaddr % PGSIZE != 0 {
      return false, r;
    }
    ghost var mem2, own2 := k.mem, k.own;
    LaidParts(mem0, own0, mem2, own2, d, data, PageUp(r));
    Below(s.vaddr + s.filesz, r);
    var got := Loaduvm(k, d, s.vaddr, s.data, s.filesz);
    StoreLaid(mem0, own0, mem2, own2, k.mem, d, data, PageUp(r));
    TablesStay(mem2, own2, k.mem, d);
    LaidParts(mem0, own0, k.mem, k.own, d, data, PageUp(r));
    if got < 0 {
      return false, r;
    }
    HoldsMore(mem1, mem2, k.mem, d, segs, s);
    return true, r;
  }

  lemma Below(end: nat, r: nat)
    requires end <= r <= USERTOP
    ensures forall v | 0 <= v && v * PGSIZE < end :: v < PageUp(r)
  {
  }

  lemma HoldsSkip(mem: seq<Page>, d: nat, segs: seq<Seg>, s: Seg)
    requires Holds(mem, d, segs) && !s.load
    ensures Holds(mem, d, segs + [s])
  {
    hide UserByte;
    assert (segs + [s])[..|segs|] == segs;
  }

  lemma HoldsMore(mem: seq<Page>, mem1: seq<Page>, mem2: seq<Page>, d: nat, segs: seq<Seg>, s: Seg)
    requires Holds(mem, d, segs) && SameBytes(mem, mem1, d) && s.load && s.filesz <= |s.data|
    requires Copied(mem1, mem2, d, s.vaddr, s.data[..s.filesz])
    ensures Holds(mem2, d, segs + [s])
  {
    hide UserByte;
    assert (segs + [s])[..|segs|] == segs;
  }

  /** The new directory d has taken the place of the old one, and no frame of anybody else has changed hands or
      contents. */
  ghost predicate Replaced(mem: seq<Page>, own: seq<Owner>, mem2: seq<Page>, own2: seq<Owner>, oldd: nat, d: nat) {
    && Sound(mem2, own2) && |mem2| == |mem| == |own| == |own2| && d < |own| && own[d].Free? && own2[d].Dir?
    && (forall f | 0 <= f < |own| :: if Belongs(own[f], f, oldd) then own2[f].Free?
          else own2[f] == own[f] || (own[f].Free? && Belongs(own2[f], f, d)))
    && (forall d2, w | 0 <= d2 < |own| && d2 != oldd && own[d2].Dir? && 0 <= w < NPAGES ::
      Look(mem2, d2, w) == Look(mem, d2, w))
    && (forall f | 0 <= f < |own| && (own[f].User? || own[f].Used?) && !Belongs(own[f], f, oldd) :: mem2[f] == mem[f])
  }

  lemma Commits(mem: seq<Page>, own: seq<Owner>, mem1: seq<Page>, own1: seq<Owner>, mem2: seq<Page>, own2: seq<Owner>,
                oldd: nat, d: nat)
    requires Sound(mem, own) && HalfBuilt(mem, own, mem1, own1, d) && oldd < |own| && own[oldd].Dir? && own1[oldd].Dir?
    requires Gone(mem1, own1, mem2, own2, oldd)
    ensures Replaced(mem, own, mem2, own2, oldd, d)
  {
    hide Sound, Look;
    assert forall g | 0 <= g < |own| && !own[g].Free? :: own1[g] == own[g] && g != d;
  }

  /** freevm of the old directory leaves the new one as it is. */
  lemma NewStays(mem: seq<Page>, own: seq<Owner>, mem2: seq<Page>, own2: seq<Owner>, oldd: nat, d: nat)
    requires Sound(mem, own) && d < |own| && own[d].Dir? && d != oldd && Gone(mem, own, mem2, own2, oldd)
    ensures |mem2| == |mem| == |own| && forall w | 0 <= w < NPAGES :: Look(mem2, d, w) == Look(mem, d, w)
    ensures SameBytes(mem, mem2, d)
  {
    forall a | 0 <= a < USERTOP ensures UserByte(mem2, d, a) == UserByte(mem, d, a) {
      var w := a / PGSIZE;
      if Present(Look(mem, d, w)) { LookUser(mem, own, d, w); }
      hide Sound, Look, PageByte;
    }
  }

  /** Directory d maps the kernel and n user pages, all open but the last but one, which the user cannot reach. */
  ghost predicate Layout(mem: seq<Page>, d: nat, data: nat, n: nat) {
    && d < |mem| && 2 <= n <= KPAGE && KernelMap(mem, d, data)
    && (forall w | 0 <= w < n && w != n - 2 :: Open(Look(mem, d, w)))
    && Present(Look(mem, d, n - 2)) && !UserPte(Look(mem, d, n - 2))
    && (forall w | n <= w < KPAGE :: !Present(Look(mem, d, w)))
  }

  lemma ClearKeepsHalf(mem: seq<Page>, own: seq<Owner>, mem1: seq<Page>, own1: seq<Owner>, mem2: seq<Page>, d: nat,
                       v: nat)
    requires HalfBuilt(mem, own, mem1, own1, d) && Cleared(mem1, own1, mem2, d, v)
    ensures HalfBuilt(mem, own, mem2, own1, d)
  {
    hide Sound, Look;
    assert forall g | 0 <= g < |own| && !own[g].Free? :: own1[g] == own[g] && g != d;
  }

  lemma ClearLaid(mem: seq<Page>, own: seq<Owner>, mem1: seq<Page>, own1: seq<Owner>, mem2: seq<Page>, d: nat,
                  data: nat, n: nat)
    requires Laid(mem, own, mem1, own1, d, data, n) && 2 <= n && Cleared(mem1, own1, mem2, d, n - 2)
    ensures Layout(mem2, d, data, n) && HalfBuilt(mem, own, mem2, own1, d)
  {
    ClearKeepsHalf(mem, own, mem1, own1, mem2, d, n - 2);
    LaidParts(mem, own, mem1, own1, d, data, n);
    hide Sound, Look, HalfBuilt, KernelPte, SameData;
  }

  /** A page out of the user's reach keeps its bytes. */
  lemma ClearBytes(mem: seq<Page>, own: seq<Owner>, mem2: seq<Page>, d: nat, v: nat)
    requires Sound(mem, own) && d < |own| && own[d].Dir? && Cleared(mem, own, mem2, d, v)
    ensures SameBytes(mem, mem2, d)
  {
    forall a | 0 <= a < USERTOP ensures UserByte(mem2, d, a) == UserByte(mem, d, a) {
      var w := a / PGSIZE;
      if Present(Look(mem, d, w)) { LookUser(mem, own, d, w); }
      hide Sound, Look, PageByte, Present;
    }
  }

  /** This is the image the argument stack is pushed onto. */
  lemma LayoutImage(mem: seq<Page>, d: nat, data: nat, n: nat, sz: nat)
    requires Layout(mem, d, data, n) && sz == n * PGSIZE
    ensures Image(mem, d, sz)
  {
    OpenUser(Look(mem, d, n - 1));
    ShutKernel(mem, d, data);
    hide Look, KernelPte, UserPte;
  }

  /** kmap gives the user nothing. */
  lemma ShutKernel(mem: seq<Page>, d: nat, data: nat)
    requires d < |mem| && KernelMap(mem, d, data)
    ensures KernelShut(mem, d)
  {
    hide Look;
    forall v | KPAGE <= v < NPAGES ensures !UserPte(Look(mem, d, v)) {
      KernelOnly(data, v);
    }
  }

  lemma KernelOnly(data: nat, v: nat)
    requires KPAGE <= v < NPAGES
    ensures !UserPte(KernelPte(data, v)) && (v >= DEVPAGE ==> Present(KernelPte(data, v)))
  {
    var f := if v < TOPPAGE then v - KPAGE else v;
    NoUserBit(f, 3);
    NoUserBit(f, 1);
  }

  lemma NoUserBit(f: nat, r: nat)
    requires r < 4
    ensures (f * 4096 + r) / 4 % 2 == 0
  {
    QuarterOf(f * 4096 + r, 1024 * f);
    EvenOf(1024 * f, 512 * f);
  }

  lemma EvenOf(k: int, j: int)
    requires k == 2 * j
    ensures k % 2 == 0
  {
  }

  /** Some string takes the stack pointer so far below zero that it does not come out among the devices, whose pages
      reach to the end of the address space. */
  ghost predicate FarDown(sz: int, argv: seq<Str>) {
    exists j: nat :: FarAt(sz, argv, j)
  }

  predicate FarAt(sz: int, argv: seq<Str>, j: nat) {
    j < |argv| && SpAt(sz, argv, j + 1) + UINT < DEVPAGE * PGSIZE
  }

  lemma FaultFar(mem: seq<Page>, d: nat, data: nat, n: nat, sz: int, argv: seq<Str>, j: nat)
    requires Layout(mem, d, data, n) && FaultsAt(mem, d, sz, argv, j)
    ensures FarDown(sz, argv)
  {
    hide SpAt;
    var a := SpAt(sz, argv, j + 1) + UINT;
    if a >= DEVPAGE * PGSIZE {
      KernelOnly(data, a / PGSIZE);
      PresentTable(mem, d, a / PGSIZE);
    }
    assert FarAt(sz, argv, j);
  }

  lemma PresentTable(mem: seq<Page>, d: nat, v: nat)
    requires d < |mem| && v < NPAGES
    ensures Present(Look(mem, d, v)) ==> HasTable(mem, d, v)
  {
  }

  lemma LayoutSame(mem: seq<Page>, mem2: seq<Page>, d: nat, data: nat, n: nat)
    requires Layout(mem, d, data, n) && |mem2| == |mem|
    requires forall w | 0 <= w < NPAGES :: Look(mem2, d, w) == Look(mem, d, w)
    ensures Layout(mem2, d, data, n)
  {
    hide Look, KernelPte, UserPte, Open, Present;
  }

  /** What the new program finds: the kernel, the segments' bytes, and its arguments on the stack. */
  ghost predicate Ready(mem: seq<Page>, d: nat, data: nat, segs: seq<Seg>, sz: nat, esp: nat, argv: seq<Str>) {
    && sz % PGSIZE == 0 && Layout(mem, d, data, sz / PGSIZE) && sz <= USERTOP
    && (forall a | 0 <= a < USERTOP && !(sz - PGSIZE <= a < sz) :: UserByte(mem, d, a) == ImageByte(segs, a))
    && StackHolds(View(mem, d, sz), esp, argv)
  }

  lemma ReadyIs(mem1: seq<Page>, mem2: seq<Page>, mem3: seq<Page>, mem4: seq<Page>, own: seq<Owner>, d: nat, data: nat,
                segs: seq<Seg>, sz: nat, esp: nat, argv: seq<Str>)
    requires Holds(mem1, d, segs) && SameBytes(mem1, mem2, d) && PushedTo(mem2, own, mem3, d, sz, true)
    requires SameBytes(mem3, mem4, d)
    requires sz % PGSIZE == 0 && sz <= USERTOP && StackHolds(View(mem3, d, sz), esp, argv)
    requires Layout(mem4, d, data, sz / PGSIZE)
    ensures Ready(mem4, d, data, segs, sz, esp, argv)
  {
    hide UserByte, StackHolds, Layout, Stored;
    assert View(mem4, d, sz) == View(mem3, d, sz);
  }

  /** Everything but memory is in order. */
  ghost predicate Runnable(header: bool, segs: seq<Seg>, argv: seq<Str>) {
    header && Loadable(segs) && FullSize(segs) < USERTOP && Fits(FullSize(segs), argv)
  }

  /** exec's way out. */
  method Bad(k: Kmem, d: nat, ghost mem0: seq<Page>, ghost own0: seq<Owner>)
    requires k.Valid() && |own0| == NF && Sound(mem0, own0) && HalfBuilt(mem0, own0, k.mem, k.own, d)
    modifies k
    ensures k.Valid() && Restored(mem0, own0, k.mem, k.own)
  {
    hide Chain, Listed, Sound, Look, HalfBuilt, Gone, Restored;
    ghost var mem1, own1 := k.mem, k.own;
    HalfGood(mem0, own0, mem1, own1, d);
    Freevm(k, d);
    ExecFails(mem0, own0, mem1, own1, k.mem, k.own, d);
  }

  /** The loop over the program headers. */
  method LoadAll(k: Kmem, d: nat, data: nat, segs: seq<Seg>, ghost mem0: seq<Page>, ghost own0: seq<Owner>,
                 ghost n0: nat)
    returns (ok: bool, sz: Word)
    requires k.Valid() && |own0| == NF && Sound(mem0, own0) && Laid(mem0, own0, k.mem, k.own, d, data, 0)
    requires d < NF && Paid(k.mem[d], |k.free|, n0, 0)
    requires Holds(k.mem, d, [])
    modifies k
    ensures k.Valid() && HalfBuilt(mem0, own0, k.mem, k.own, d)
    ensures ok ==> Loadable(segs) && sz == Size(segs) < USERTOP && Paid(k.mem[d], |k.free|, n0, PageUp(sz))
    ensures ok ==> Laid(mem0, own0, k.mem, k.own, d, data, PageUp(sz)) && Holds(k.mem, d, segs)
    ensures !ok ==> !Loadable(segs) || n0 < Frames(PageUp(Size(segs)))
  {
    hide Chain, Listed, Sound, Look, Laid, HalfBuilt, Holds, Loads, Grow, Paid, Frames;
    sz := 0;
    var i := 0;
    LaidParts(mem0, own0, k.mem, k.own, d, data, 0);
    assert segs[..0] == [];
    while i < |segs|
      invariant 0 <= i <= |segs| && k.Valid() && HalfBuilt(mem0, own0, k.mem, k.own, d)
      invariant Loadable(segs[..i]) && sz == Size(segs[..i]) < USERTOP && Paid(k.mem[d], |k.free|, n0, PageUp(sz))
      invariant Laid(mem0, own0, k.mem, k.own, d, data, PageUp(sz)) && Holds(k.mem, d, segs[..i])
    {
      SizeNext(segs, i);
      ok, sz := LoadSeg(k, d, data, segs[i], sz, segs[..i], mem0, own0, n0);
      if !ok {
        if Loadable(segs) {
          LoadablePrefix(segs, i + 1);
          SizeMore(segs, i + 1);
        }
        return;
      }
      assert segs[..i] + [segs[i]] == segs[..i + 1];
      i := i + 1;
    }
    assert segs[..i] == segs;
    ok := true;
  }

  /** exec: on any failure every frame, map and page of everybody is as it was; on success the new directory d has
      replaced the old one and holds the program and its arguments. */
  method Exec(k: Kmem, oldd: nat, data: nat, header: bool, segs: seq<Seg>, argv: seq<Str>)
    returns (r: int, d: nat, sz: Word, esp: Word)
    requires Good(k) && oldd < NF && k.own[oldd].Dir? && LINKPAGE < data < TOPPAGE
    requires InMemory(argv)
    modifies k
    ensures k.Valid() && (r == 0 || r == -1 || r == FAULT)
    ensures r == FAULT ==> FarDown(FullSize(segs), argv)
    ensures r == -1 ==> Restored(old(k.mem), old(k.own), k.mem, k.own)
    ensures r == 0 ==>
      Replaced(old(k.mem), old(k.own), k.mem, k.own, oldd, d) && Ready(k.mem, d, data, segs, sz, esp, argv)
    ensures r == 0 ==> sz == FullSize(segs) && esp == Final(sz, argv)
    ensures r == 0 <==> Runnable(header, segs, argv) && |old(k.free)| >= Frames(FullSize(segs) / PGSIZE)
    ensures r == 0 ==> Reachable(k.mem, d, sz / PGSIZE)
  {
    hide Chain, Listed, Sound, Look, Laid, HalfBuilt, Building, Restored, Holds, Loadable, Ready, Replaced, Layout,
      Image, Gone, SameBytes, PushedTo, StackHolds, View, Fits, Final, Present, FarDown, Paid, Frames, Reachable;
    ghost var mem0, own0, n0 := k.mem, k.own, |k.free|;
    FullFrames(segs);
    sz, esp := 0, 0;
    if !header {
      Untouched(mem0, own0);
      return -1, 0, sz, esp;
    }
    d := Setupkvm(k, data);
    if d == 0 {
      return -1, d, sz, esp;
    }
    LaidNone(mem0, own0, k.mem, k.own, d, data);
    var ok;
    ok, sz := LoadAll(k, d, data, segs, mem0, own0, n0);
    if !ok {
      Bad(k, d, mem0, own0);
      return -1, d, sz, esp;
    }
    Rounded(Size(segs));
    sz := PageUp(sz) * PGSIZE;
    ghost var mem1, n := k.mem, sz / PGSIZE + 2;
    sz := Extend(k, d, data, sz, sz + 2 * PGSIZE, mem0, own0, n0);
    if sz == 0 {
      Bad(k, d, mem0, own0);
      return -1, d, sz, esp;
    }
    PaidEnough(k.mem[d], |k.free|, n0, PageUp(sz));
    r, esp := Arguments(k, d, data, sz, argv, segs, mem0, own0, mem1);
    if r == FAULT {
      return;
    }
    if r < 0 {
      Bad(k, d, mem0, own0);
      return -1, d, sz, esp;
    }
    ghost var mem2, own2 := k.mem, k.own;
    OldStays(mem0, own0, mem2, own2, oldd, d);
    Freevm(k, oldd);
    Commits(mem0, own0, mem2, own2, k.mem, k.own, oldd, d);
    ReadyStays(mem2, own2, k.mem, k.own, oldd, d, data, segs, sz, esp, argv);
    ReadyReachable(mem0, own0, oldd, k.mem, k.own, d, data, segs, sz, esp, argv);
  }

  /** The user may load from and store to the first n pages but the guard page, and nothing else, by both levels of the
      tables. */
  ghost predicate Reachable(mem: seq<Page>, d: nat, n: nat) {
    d < |mem| && forall v, w: bool | 0 <= v < NPAGES :: UserMay(mem, d, v, w) <==> v < n && v != n - 2
  }

  lemma ReadyReachable(mem: seq<Page>, own: seq<Owner>, oldd: nat, mem2: seq<Page>, own2: seq<Owner>, d: nat, data: nat,
                       segs: seq<Seg>, sz: nat, esp: nat, argv: seq<Str>)
    requires Replaced(mem, own, mem2, own2, oldd, d) && Ready(mem2, d, data, segs, sz, esp, argv)
    ensures Reachable(mem2, d, sz / PGSIZE)
  {
    hide Sound, Look, UserMay, KernelMap, Open, Present, UserPte, Grants, UserByte, StackHolds;
    var n := sz / PGSIZE;
    ShutKernel(mem2, d, data);
    forall v, w: bool | 0 <= v < NPAGES ensures UserMay(mem2, d, v, w) <==> v < n && v != n - 2 {
      EntryDecides(mem2, own2, d, v, w);
      EntryGrants(Look(mem2, d, v), w);
    }
  }

  lemma EntryGrants(e: Word, w: bool)
    ensures Open(e) ==> Grants(e, w)
    ensures !Present(e) || !UserPte(e) ==> !Grants(e, w)
  {
    if Open(e) {
      SameBits(e, 7, w);
    }
  }

  lemma FullFrames(segs: seq<Seg>)
    ensures KERNFRAMES <= Frames(PageUp(Size(segs))) <= Frames(FullSize(segs) / PGSIZE)
    ensures FullSize(segs) / PGSIZE == PageUp(Size(segs)) + 2 == PageUp(FullSize(segs))
  {
    FramesMore(PageUp(Size(segs)), PageUp(Size(segs)) + 2);
  }

  lemma Rounded(a: nat)
    requires a < USERTOP
    ensures PageUp(PageUp(a) * PGSIZE) == PageUp(a) <= KPAGE && PageUp(a) * PGSIZE <= USERTOP
  {
  }

  /** The guard page and the arguments. */
  method Arguments(k: Kmem, d: nat, data: nat, sz: Word, argv: seq<Str>, ghost segs: seq<Seg>,
                   ghost mem0: seq<Page>, ghost own0: seq<Owner>, ghost mem1: seq<Page>) returns (r: int, esp: Word)
    requires k.Valid() && |own0| == NF && Sound(mem0, own0) && sz % PGSIZE == 0 && 2 * PGSIZE <= sz < USERTOP
    requires InMemory(argv)
    requires Laid(mem0, own0, k.mem, k.own, d, data, PageUp(sz)) && Holds(mem1, d, segs) && SameBytes(mem1, k.mem, d)
    modifies k
    ensures k.Valid() && HalfBuilt(mem0, own0, k.mem, k.own, d)
    ensures r == 0 || r == -1 || r == FAULT
    ensures r == 0 <==> Fits(sz, argv)
    ensures r == FAULT ==> FarDown(sz, argv)
    ensures r == 0 ==> Ready(k.mem, d, data, segs, sz, esp, argv) && esp == Final(sz, argv)
  {
    hide Chain, Listed, Sound, Look, Laid, HalfBuilt, Holds, Ready, Layout, Image, SameBytes, PushedTo, StackHolds,
      View, Fits, Final, Cleared, Present, FaultsAt, FarDown;
    ghost var mem2, own2 := k.mem, k.own;
    UpMore(sz, sz);
    LaidParts(mem0, own0, mem2, own2, d, data, PageUp(sz));
    Clearpteu(k, d, sz / PGSIZE - 2);
    ghost var mem3 := k.mem;
    ClearLaid(mem0, own0, mem2, own2, mem3, d, data, sz / PGSIZE);
    ClearBytes(mem2, own2, mem3, d, sz / PGSIZE - 2);
    LayoutImage(mem3, d, data, sz / PGSIZE, sz);
    r, esp := PushArgs(k, d, sz, argv);
    if r == FAULT {
      ghost var j: nat :| j < MAXARG && FaultsAt(mem3, d, sz, argv, j);
      FaultFar(mem3, d, data, sz / PGSIZE, sz, argv, j);
    }
    PushedHalf(mem0, own0, mem3, own2, k.mem, d, data, sz, r == 0);
    if r == 0 {
      SameTwice(mem1, mem2, mem3, d);
      SameSelf(k.mem, d);
      ReadyIs(mem1, mem3, k.mem, k.mem, own2, d, data, segs, sz, esp, argv);
    }
  }

  lemma OldStays(mem: seq<Page>, own: seq<Owner>, mem1: seq<Page>, own1: seq<Owner>, oldd: nat, d: nat)
    requires HalfBuilt(mem, own, mem1, own1, d) && oldd < |own| && own[oldd].Dir?
    ensures Sound(mem1, own1) && d < |own1| == |own| && own1[oldd].Dir? && own1[d].Dir? && d != oldd
  {
  }

  lemma PushedHalf(mem: seq<Page>, own: seq<Owner>, mem1: seq<Page>, own1: seq<Owner>, mem2: seq<Page>, d: nat,
                   data: nat, sz: nat, ok: bool)
    requires Sound(mem, own) && HalfBuilt(mem, own, mem1, own1, d) && PushedTo(mem1, own1, mem2, d, sz, ok)
    requires Layout(mem1, d, data, sz / PGSIZE)
    ensures HalfBuilt(mem, own, mem2, own1, d) && Layout(mem2, d, data, sz / PGSIZE)
  {
    StoreHalf(mem, own, mem1, own1, mem2, d);
    HalfGood(mem, own, mem1, own1, d);
    TablesStay(mem1, own1, mem2, d);
    hide Sound, Look, HalfBuilt, Stored, Layout, BelowSame;
    LayoutSame(mem1, mem2, d, data, sz / PGSIZE);
  }

  lemma SameTwice(mem: seq<Page>, mem1: seq<Page>, mem2: seq<Page>, d: nat)
    requires SameBytes(mem, mem1, d) && SameBytes(mem1, mem2, d)
    ensures SameBytes(mem, mem2, d)
  {
    hide UserByte;
  }

  lemma SameSelf(mem: seq<Page>, d: nat)
    requires d < |mem|
    ensures SameBytes(mem, mem, d)
  {
  }

  lemma ReadyStays(mem: seq<Page>, own: seq<Owner>, mem2: seq<Page>, own2: seq<Owner>, oldd: nat, d: nat, data: nat,
                   segs: seq<Seg>, sz: nat, esp: nat, argv: seq<Str>)
    requires Sound(mem, own) && d < |own| && own[d].Dir? && d != oldd && Gone(mem, own, mem2, own2, oldd)
    requires Ready(mem, d, data, segs, sz, esp, argv)
    ensures Ready(mem2, d, data, segs, sz, esp, argv)
  {
    NewStays(mem, own, mem2, own2, oldd, d);
    LayoutSame(mem, mem2, d, data, sz / PGSIZE);
    hide Sound, Look, Gone, Layout, UserByte, StackHolds;
    assert View(mem2, d, sz) == View(mem, d, sz);
  }
}
