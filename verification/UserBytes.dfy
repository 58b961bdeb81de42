/** vm.c: user memory as bytes, read and written through the page tables. */
module UserBytes {
  import opened Blocks
  import opened Kalloc
  import opened PageMap
  import opened Vm
  import opened UserSpace

  const USERTOP: nat := 0x8000_0000       // KERNBASE

  lemma LoadOnce(s: seq<Byte>)
    requires |s| == 4
    ensures Bytes(Load(s)) == s
  {
    var t := Bytes(Load(s));
    assert Load(t) == Load(s);
    var b0: int, b1: int, b2: int, b3: int := s[0], s[1], s[2], s[3];
    var c0: int, c1: int, c2: int, c3: int := t[0], t[1], t[2], t[3];
    assert b0 == c0 && b1 == c1 && b2 == c2 && b3 == c3;
  }

  /** The byte of a page at offset o. */
  function PageByte(pg: Page, o: nat): Byte
    requires o < PGSIZE
  {
    Bytes(pg[o / 4])[o % 4]
  }

  /** memmove of s to offset o of a page. */
  function Patch(pg: Page, o: nat, s: seq<Byte>): (r: Page)
    requires o + |s| <= PGSIZE
    ensures forall i | 0 <= i < PGSIZE :: PageByte(r, i) == if o <= i < o + |s| then s[i - o] else PageByte(pg, i)
  {
    var r: Page := seq(NENT, j requires 0 <= j < NENT => PatchWord(pg, o, s, j));
    assert forall i | 0 <= i < PGSIZE :: PageByte(r, i) == Patched(pg, o, s, i) by {
      forall i | 0 <= i < PGSIZE ensures PageByte(r, i) == Patched(pg, o, s, i) { PatchByte(pg, o, s, r, i); }
    }
    r
  }

  function Patched(pg: Page, o: nat, s: seq<Byte>, i: nat): Byte
    requires i < PGSIZE
  {
    if o <= i < o + |s| then s[i - o] else PageByte(pg, i)
  }

  function PatchWord(pg: Page, o: nat, s: seq<Byte>, j: nat): Word
    requires j < NENT
  {
    Load([Patched(pg, o, s, 4 * j), Patched(pg, o, s, 4 * j + 1), Patched(pg, o, s, 4 * j + 2),
      Patched(pg, o, s, 4 * j + 3)])
  }

  lemma PatchByte(pg: Page, o: nat, s: seq<Byte>, r: Page, i: nat)
    requires i < PGSIZE && r[i / 4] == PatchWord(pg, o, s, i / 4)
    ensures PageByte(r, i) == Patched(pg, o, s, i)
  {
    hide Patched;
    var j := i / 4;
    LoadOnce([Patched(pg, o, s, 4 * j), Patched(pg, o, s, 4 * j + 1), Patched(pg, o, s, 4 * j + 2),
      Patched(pg, o, s, 4 * j + 3)]);
  }

  /** The byte at user address a under directory d, 0 where no page is. */
  function UserByte(mem: seq<Page>, d: nat, a: nat): Byte
    requires d < |mem| && a < USERTOP
  {
    var e := Look(mem, d, a / PGSIZE);
    if Present(e) && Frame(e) < |mem| then PageByte(mem[Frame(e)], a % PGSIZE) else 0
  }

  /** The first sz bytes of user memory. */
  function View(mem: seq<Page>, d: nat, sz: nat): (s: seq<Byte>)
    requires d < |mem| && sz <= USERTOP
    ensures |s| == sz
  {
    seq(sz, a requires 0 <= a < sz => UserByte(mem, d, a))
  }

  predicate UserAt(mem: seq<Page>, d: nat, a: nat)
    requires d < |mem|
  {
    a < USERTOP && UserPte(Look(mem, d, a / PGSIZE))
  }

  /** Nothing changed but what is in d's user pages. */
  ghost predicate Stored(mem: seq<Page>, own: seq<Owner>, mem2: seq<Page>, d: nat) {
    && Sound(mem2, own) && SameMaps(mem, own, mem2)
    && forall g | 0 <= g < |own| && !(own[g].User? && own[g].d == d) :: mem2[g] == mem[g]
  }

  lemma StoredNone(mem: seq<Page>, own: seq<Owner>, d: nat)
    requires Sound(mem, own)
    ensures Stored(mem, own, mem, d)
  {
    assert |mem| == |own|;
    hide Sound, Look;
  }

  /** A store into a user page of d: only those bytes of d change, although frames are found through the tables. */
  lemma StorePage(mem: seq<Page>, own: seq<Owner>, d: nat, v: nat, o: nat, s: seq<Byte>)
    requires Sound(mem, own) && d < |mem| && own[d].Dir? && v < KPAGE && Present(Look(mem, d, v)) && o + |s| <= PGSIZE
    ensures var f := Frame(Look(mem, d, v));
      f < |mem| && own[f] == User(d, v / NENT, v % NENT) && Stored(mem, own, mem[f := Patch(mem[f], o, s)], d)
    ensures var f := Frame(Look(mem, d, v)); forall a | 0 <= a < USERTOP ::
      UserByte(mem[f := Patch(mem[f], o, s)], d, a)
      == if v * PGSIZE + o <= a < v * PGSIZE + o + |s| then s[a - v * PGSIZE - o] else UserByte(mem, d, a)
  {
    hide Sound, Look, Patch, Present, UserByte;
    LookUser(mem, own, d, v);
    var f := Frame(Look(mem, d, v));
    var mem2 := mem[f := Patch(mem[f], o, s)];
    SoundSize(mem, own);
    StoreOne(mem, own, f, Patch(mem[f], o, s));
    forall a | 0 <= a < USERTOP
      ensures UserByte(mem2, d, a)
           == if v * PGSIZE + o <= a < v * PGSIZE + o + |s| then s[a - v * PGSIZE - o] else UserByte(mem, d, a) {
      StoreByte(mem, own, mem2, d, v, o, s, a);
    }
  }

  lemma SoundSize(mem: seq<Page>, own: seq<Owner>)
    requires Sound(mem, own)
    ensures |mem| == |own|
  {
  }

  lemma StoreOne(mem: seq<Page>, own: seq<Owner>, f: nat, pg: Page)
    requires Sound(mem, own) && f < |own| == |mem| && own[f].User?
    ensures Stored(mem, own, mem[f := pg], own[f].d)
  {
    ScratchKeeps(mem, own, mem[f := pg], own);
    hide Sound, Look;
  }

  lemma StoreByte(mem: seq<Page>, own: seq<Owner>, mem2: seq<Page>, d: nat, v: nat, o: nat, s: seq<Byte>, a: nat)
    requires Sound(mem, own) && d < |mem| && own[d].Dir? && v < KPAGE && Present(Look(mem, d, v)) && o + |s| <= PGSIZE
    requires Frame(Look(mem, d, v)) < |mem| && a < USERTOP && Stored(mem, own, mem2, d)
    requires var f := Frame(Look(mem, d, v)); mem2 == mem[f := Patch(mem[f], o, s)]
    ensures UserByte(mem2, d, a)
         == if v * PGSIZE + o <= a < v * PGSIZE + o + |s| then s[a - v * PGSIZE - o] else UserByte(mem, d, a)
  {
    hide Sound, Look, Patch, PageByte, Present, Stored;
    var w := a / PGSIZE;
    SoundSize(mem, own);
    OtherPage(mem, own, d, v, w);
    TablesStay(mem, own, mem2, d);
    InPage(v, a, o, |s|);
  }

  lemma OtherPage(mem: seq<Page>, own: seq<Owner>, d: nat, v: nat, w: nat)
    requires Sound(mem, own) && d < |mem| && own[d].Dir? && v < KPAGE && w < KPAGE && Present(Look(mem, d, v))
    ensures Present(Look(mem, d, w)) && v != w ==> Frame(Look(mem, d, w)) != Frame(Look(mem, d, v))
  {
    hide Sound, Look, Present;
    LookUser(mem, own, d, v);
    if Present(Look(mem, d, w)) { LookUser(mem, own, d, w); }
  }

  lemma InPage(v: nat, a: nat, o: nat, n: nat)
    requires o + n <= PGSIZE
    ensures v * PGSIZE + o <= a < v * PGSIZE + o + n <==> a / PGSIZE == v && o <= a % PGSIZE < o + n
    ensures a / PGSIZE == v ==> a % PGSIZE == a - v * PGSIZE
  {
  }

  /** The bytes of s now stand at user address va, and all others are what they were. */
  ghost predicate Copied(mem: seq<Page>, mem2: seq<Page>, d: nat, va: nat, s: seq<Byte>) {
    && d < |mem| == |mem2|
    && forall a | 0 <= a < USERTOP ::
      UserByte(mem2, d, a) == if va <= a < va + |s| then s[a - va] else UserByte(mem, d, a)
  }

  lemma CopiedNone(mem: seq<Page>, d: nat, va: nat)
    requires d < |mem|
    ensures Copied(mem, mem, d, va, [])
  {
  }

  lemma CopiedMore(mem: seq<Page>, mem1: seq<Page>, mem2: seq<Page>, d: nat, va: nat, s: seq<Byte>, t: seq<Byte>)
    requires Copied(mem, mem1, d, va, s) && Copied(mem1, mem2, d, va + |s|, t)
    ensures Copied(mem, mem2, d, va, s + t)
  {
    hide UserByte;
  }

  lemma StoredMore(mem: seq<Page>, own: seq<Owner>, mem1: seq<Page>, mem2: seq<Page>, d: nat)
    requires Stored(mem, own, mem1, d) && Stored(mem1, own, mem2, d)
    ensures Stored(mem, own, mem2, d)
  {
    hide Sound, Look;
  }

  /** There is a page table for page v, so walkpgdir finds an entry. */
  predicate HasTable(mem: seq<Page>, d: nat, v: nat)
    requires d < |mem|
  {
    v < NPAGES && Present(mem[d][v / NENT])
  }

  /** No page of the kernel's is the user's too. */
  ghost predicate KernelShut(mem: seq<Page>, d: nat) {
    d < |mem| && forall v | KPAGE <= v < NPAGES :: !UserPte(Look(mem, d, v))
  }

  lemma ShutAt(mem: seq<Page>, d: nat, a: nat)
    requires KernelShut(mem, d) && a < UINT && !UserAt(mem, d, a)
    ensures !UserPte(Look(mem, d, a / PGSIZE))
  {
    hide Look, UserPte;
    assert a < USERTOP ==> a / PGSIZE < KPAGE;
  }

  /** Byte n of a stretch of len bytes is the first that is not the user's. */
  ghost predicate StopsAt(mem: seq<Page>, d: nat, va: nat, len: nat, n: nat) {
    && d < |mem| && n < len && va + n < UINT && !UserAt(mem, d, va + n)
    && forall a | va <= a < va + n :: UserAt(mem, d, a)
  }

  lemma TablesStay(mem: seq<Page>, own: seq<Owner>, mem2: seq<Page>, d: nat)
    requires Stored(mem, own, mem2, d) && d < |own| && own[d].Dir?
    ensures |mem2| == |mem| == |own| && Sound(mem2, own) && mem2[d] == mem[d]
    ensures forall v | 0 <= v < NPAGES :: Look(mem2, d, v) == Look(mem, d, v)
    ensures forall a: nat :: UserAt(mem2, d, a) == UserAt(mem, d, a)
  {
    hide Sound, Look;
  }

  lemma TableThere(mem: seq<Page>, own: seq<Owner>, d: nat, v: nat)
    requires Sound(mem, own) && d < |mem| && own[d].Dir? && v < KPAGE && Present(Look(mem, d, v))
    ensures HasTable(mem, d, v)
  {
  }

  /** A user page is a frame above the kernel's, so not null. */
  lemma PageNonzero(k: Kmem, d: nat, v: nat)
    requires Good(k) && d < NF && k.own[d].Dir? && v < KPAGE && Present(Look(k.mem, d, v))
    ensures 0 < Frame(Look(k.mem, d, v)) < NF && k.own[Frame(Look(k.mem, d, v))].User?
    ensures k.own[Frame(Look(k.mem, d, v))].d == d
  {
    LookUser(k.mem, k.own, d, v);
    ListedAt(k.own, k.free, k.first, Frame(Look(k.mem, d, v)));
  }

  /** uva2ka: the frame of a user page, or 0. It looks at the entry walkpgdir found without asking whether it found one;
      fault says that there is none, so that the source reads through a null pointer. */
  method Uva2ka(k: Kmem, d: nat, v: nat) returns (fault: bool, f: nat)
    requires Good(k) && d < NF && k.own[d].Dir? && v < NPAGES && (v < KPAGE || !UserPte(Look(k.mem, d, v)))
    modifies k
    ensures Good(k) && k.mem == old(k.mem) && k.own == old(k.own) && k.free == old(k.free)
    ensures (fault <==> !HasTable(k.mem, d, v)) && (fault ==> f == 0)
    ensures f != 0 <==> UserPte(Look(k.mem, d, v))
    ensures f != 0 ==> f == Frame(Look(k.mem, d, v))
  {
    hide Chain, Listed, Sound, Look;
    var t := Walkpgdir(k, d, v, false);
    NoTable(k.mem, k.own, d, v);
    if t == 0 {
      return true, 0;
    }
    fault := false;
    var pte := k.mem[t][v % NENT];
    if !Present(pte) {
      return fault, 0;
    }
    if pte / 4 % 2 == 0 {
      return fault, 0;
    }
    PageNonzero(k, d, v);
    return fault, Frame(pte);
  }

  lemma NoTable(mem: seq<Page>, own: seq<Owner>, d: nat, v: nat)
    requires Sound(mem, own) && d < |mem| && own[d].Dir? && v < NPAGES
    ensures !HasTable(mem, d, v) ==> Look(mem, d, v) == 0
    ensures HasTable(mem, d, v) ==> Present(mem[d][v / NENT])
  {
    TableFacts(mem, own, d, v);
  }

  /** What copyout comes to when the source reads through a null pointer. */
  const FAULT: int := -2

  /** A page of directory d, as a place for bytes. */
  lemma PageFrom(k: Kmem, d: nat, v: nat, o: nat, s: seq<Byte>)
    requires Good(k) && d < NF && k.own[d].Dir? && v < KPAGE && Present(Look(k.mem, d, v)) && o + |s| <= PGSIZE
    ensures var f, m := Frame(Look(k.mem, d, v)), k.mem;
      && f < NF && k.own[f].User? && Stored(m, k.own, m[f := Patch(m[f], o, s)], d)
      && Copied(m, m[f := Patch(m[f], o, s)], d, v * PGSIZE + o, s)
  {
    StorePage(k.mem, k.own, d, v, o, s);
    hide Sound, Look, Patch, UserByte;
  }

  /** copyout: the bytes, or -1 once a page is not the user's, FAULT when there is not even a table for it. */
  method Copyout(k: Kmem, d: nat, va: nat, p: seq<Byte>) returns (r: int)
    requires Good(k) && d < NF && k.own[d].Dir? && va < UINT && KernelShut(k.mem, d)
    modifies k
    ensures Good(k) && k.own == old(k.own) && k.free == old(k.free) && Stored(old(k.mem), k.own, k.mem, d)
    ensures r == 0 || r == -1 || r == FAULT
    ensures r == 0 <==> forall a | va <= a < va + |p| :: UserAt(old(k.mem), d, a)
    ensures r == FAULT <==> Uncovered(old(k.mem), d, va, |p|)
    ensures r == 0 ==> Copied(old(k.mem), k.mem, d, va, p)
    ensures exists n :: 0 <= n <= |p| && Copied(old(k.mem), k.mem, d, va, p[..n])
  {
    hide Chain, Listed, Sound, Look, Stored, Copied, HasTable, UserPte, Uncovered;
    ghost var mem0, own0 := k.mem, k.own;
    StoredNone(mem0, own0, d);
    CopiedNone(mem0, d, va);
    var i := 0;
    while i < |p|
      invariant 0 <= i <= |p| && k.Valid() && k.own == own0 && k.free == old(k.free)
      invariant Stored(mem0, own0, k.mem, d) && Copied(mem0, k.mem, d, va, p[..i])
      invariant va + i < UINT && forall a | va <= a < va + i :: UserAt(mem0, d, a)
      decreases |p| - i
    {
      ghost var mem1 := k.mem;
      TablesStay(mem0, own0, mem1, d);
      var v := (va + i) / PGSIZE;
      PageOffset(va + i);
      SameTable(mem0, mem1, d, v);
      Stopping(mem0, d, va, |p|, i);
      var fault, f := Uva2ka(k, d, v);
      if fault {
        return FAULT;
      }
      if f == 0 {
        return -1;
      }
      var n := PGSIZE - (va + i) % PGSIZE;
      if n > |p| - i {
        n := |p| - i;
      }
      UserIs(mem1, d, v);
      PageFrom(k, d, v, (va + i) % PGSIZE, p[i..i + n]);
      k.Set(f, Patch(k.mem[f], (va + i) % PGSIZE, p[i..i + n]));
      StoredMore(mem0, own0, mem1, k.mem, d);
      CopiedMore(mem0, mem1, k.mem, d, va, p[..i], p[i..i + n]);
      assert p[..i] + p[i..i + n] == p[..i + n];
      OnePage(mem0, d, va + i, v, n);
      i := i + n;
    }
    assert p[..i] == p;
    TablesStay(mem0, own0, k.mem, d);
    NotStopped(mem0, d, va, |p|);
    return 0;
  }

  lemma NotStopped(mem: seq<Page>, d: nat, va: nat, len: nat)
    requires d < |mem| && forall a | va <= a < va + len :: UserAt(mem, d, a)
    ensures !Uncovered(mem, d, va, len)
  {
    hide UserAt, HasTable;
  }

  lemma PageOffset(a: nat)
    requires a < UINT
    ensures a / PGSIZE < NPAGES && a / PGSIZE * PGSIZE + a % PGSIZE == a
    ensures a / PGSIZE < KPAGE <==> a < USERTOP
  {
  }

  /** Where a copy stops there is no page table. */
  ghost predicate Uncovered(mem: seq<Page>, d: nat, va: nat, len: nat) {
    exists n: nat :: StopsAt(mem, d, va, len, n) && !HasTable(mem, d, (va + n) / PGSIZE)
  }

  /** Having come to byte i, copyout stops there, or that byte is the user's. */
  lemma Stopping(mem: seq<Page>, d: nat, va: nat, len: nat, i: nat)
    requires KernelShut(mem, d) && i < len && va + i < UINT && forall a | va <= a < va + i :: UserAt(mem, d, a)
    ensures UserAt(mem, d, va + i) <==> UserPte(Look(mem, d, (va + i) / PGSIZE))
    ensures UserPte(Look(mem, d, (va + i) / PGSIZE)) ==> (va + i) / PGSIZE < KPAGE
    ensures StopsAt(mem, d, va, len, i) <==> !UserAt(mem, d, va + i)
    ensures !UserAt(mem, d, va + i) ==> (Uncovered(mem, d, va, len) <==> !HasTable(mem, d, (va + i) / PGSIZE))
  {
    hide Look, UserPte, HasTable;
    assert !UserAt(mem, d, va + i) ==> forall n | StopsAt(mem, d, va, len, n) :: n == i;
    PageOffset(va + i);
    if !UserAt(mem, d, va + i) { ShutAt(mem, d, va + i); }
  }

  lemma SameTable(mem: seq<Page>, mem2: seq<Page>, d: nat, v: nat)
    requires d < |mem| == |mem2| && mem2[d] == mem[d]
    ensures HasTable(mem2, d, v) == HasTable(mem, d, v)
  {
  }

  lemma UserIs(mem: seq<Page>, d: nat, v: nat)
    requires d < |mem| && v < NPAGES && UserPte(Look(mem, d, v))
    ensures Present(Look(mem, d, v))
  {
  }

  /** The bytes up to the end of a user page are the user's. */
  lemma OnePage(mem: seq<Page>, d: nat, a0: nat, v: nat, n: nat)
    requires d < |mem| && v == a0 / PGSIZE && v < KPAGE && n <= PGSIZE - a0 % PGSIZE && UserPte(Look(mem, d, v))
    ensures forall a | a0 <= a < a0 + n :: UserAt(mem, d, a)
  {
    hide Look, UserPte;
    forall a | a0 <= a < a0 + n ensures UserAt(mem, d, a) {
      assert a / PGSIZE == v;
    }
  }

  /** What a read of n bytes at offset off gives when data is what the file has from there on. */
  function Got(data: seq<Byte>, off: nat, n: nat): (s: seq<Byte>)
    ensures |s| <= n && (|s| == n <==> n == 0 || off + n <= |data|)
  {
    if off >= |data| then [] else if off + n <= |data| then data[off..off + n] else data[off..]
  }

  /** loaduvm: a segment's bytes into pages that are there, or -1 when the file is too short. */
  method Loaduvm(k: Kmem, d: nat, addr: nat, data: seq<Byte>, sz: nat) returns (r: int)
    requires Good(k) && d < NF && k.own[d].Dir? && addr % PGSIZE == 0 && addr + sz <= USERTOP
    requires forall v | addr / PGSIZE <= v && v * PGSIZE < addr + sz :: v < KPAGE && Present(Look(k.mem, d, v))
    modifies k
    ensures Good(k) && k.own == old(k.own) && k.free == old(k.free) && Stored(old(k.mem), k.own, k.mem, d)
    ensures r == 0 || r == -1
    ensures r == 0 <==> sz <= |data|
    ensures r == 0 ==> Copied(old(k.mem), k.mem, d, addr, data[..sz])
  {
    hide Chain, Listed, Sound, Look, Stored, Copied, Present;
    ghost var mem0, own0 := k.mem, k.own;
    StoredNone(mem0, own0, d);
    CopiedNone(mem0, d, addr);
    var i := 0;
    while i < sz
      invariant i % PGSIZE == 0 && k.Valid() && k.own == own0 && k.free == old(k.free) && Stored(mem0, own0, k.mem, d)
      invariant var m := if i < sz then i else sz; m <= |data| && Copied(mem0, k.mem, d, addr, data[..m])
      decreases sz - i
    {
      ghost var mem1 := k.mem;
      TablesStay(mem0, own0, mem1, d);
      var v := (addr + i) / PGSIZE;
      PageStart(addr, i);
      assert Present(Look(mem0, d, v));
      TableThere(mem1, own0, d, v);
      var t := Walkpgdir(k, d, v, false);
      var f := Frame(k.mem[t][v % NENT]);
      var n := if sz - i < PGSIZE then sz - i else PGSIZE;
      PageFrom(k, d, v, 0, Got(data, i, n));
      k.Set(f, Patch(k.mem[f], 0, Got(data, i, n)));
      StoredMore(mem0, own0, mem1, k.mem, d);
      TablesStay(mem0, own0, k.mem, d);
      if |Got(data, i, n)| != n {
        return -1;
      }
      CopiedMore(mem0, mem1, k.mem, d, addr, data[..i], data[i..i + n]);
      assert data[..i] + data[i..i + n] == data[..i + n];
      i := i + PGSIZE;
    }
    TablesStay(mem0, own0, k.mem, d);
    return 0;
  }

  lemma PageStart(addr: nat, i: nat)
    requires addr % PGSIZE == 0 && i % PGSIZE == 0
    ensures (addr + i) / PGSIZE * PGSIZE == addr + i && addr / PGSIZE <= (addr + i) / PGSIZE
    ensures (i + PGSIZE) % PGSIZE == 0
  {
    var p, q := addr / PGSIZE, i / PGSIZE;
    assert addr + i == (p + q) * PGSIZE;
  }
}
