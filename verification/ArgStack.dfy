/** exec.c: the argument stack, pushed through the new directory's page tables. */
module ArgStack {
  import opened Blocks
  import opened Kalloc
  import opened PageMap
  import opened Vm
  import opened UserSpace
  import opened UserBytes

  const MAXARG: nat := 32

  type Str = seq<Byte>           // a C string without its NUL

  function Down4(x: int): int { x - x % 4 }

  /** The stack pointer once the first k strings are pushed. */
  function SpAt(sz: int, argv: seq<Str>, k: nat): int
    requires k <= |argv|
  {
    if k == 0 then sz else Down4(SpAt(sz, argv, k - 1) - (|argv[k - 1]| + 1))
  }

  /** The stack pointer main starts with. */
  function Final(sz: int, argv: seq<Str>): int {
    SpAt(sz, argv, |argv|) - (3 + |argv| + 1) * 4
  }

  /** exec's image: pages up to sz, the top one the stack, and the one below it out of the user's reach. */
  ghost predicate Image(mem: seq<Page>, d: nat, sz: nat) {
    && d < |mem| && sz % PGSIZE == 0 && 2 * PGSIZE <= sz <= USERTOP
    && (forall v | 0 <= v < sz / PGSIZE :: Present(Look(mem, d, v)))
    && UserPte(Look(mem, d, sz / PGSIZE - 1)) && !UserPte(Look(mem, d, sz / PGSIZE - 2)) && KernelShut(mem, d)
  }

  lemma ImagePages(mem: seq<Page>, d: nat, sz: nat, a: nat)
    requires Image(mem, d, sz)
    ensures sz - PGSIZE <= a < sz ==> UserAt(mem, d, a)
    ensures sz - 2 * PGSIZE <= a < sz - PGSIZE ==> !UserAt(mem, d, a)
  {
    hide Look, UserPte;
  }

  lemma ImageSize(mem: seq<Page>, d: nat, sz: nat)
    requires Image(mem, d, sz)
    ensures d < |mem| && sz % PGSIZE == 0 && 2 * PGSIZE <= sz <= USERTOP && KernelShut(mem, d)
  {
  }

  /** Stores leave the image an image. */
  lemma ImageStays(mem: seq<Page>, own: seq<Owner>, mem2: seq<Page>, d: nat, sz: nat)
    requires Image(mem, d, sz) && Stored(mem, own, mem2, d) && d < |own| && own[d].Dir?
    ensures Image(mem2, d, sz) && |mem2| == |own| && Sound(mem2, own)
  {
    TablesStay(mem, own, mem2, d);
    hide Look, UserPte, Sound, Stored;
  }

  lemma ImageTables(mem: seq<Page>, own: seq<Owner>, d: nat, sz: nat)
    requires Image(mem, d, sz) && Sound(mem, own) && d < |own| && own[d].Dir?
    ensures forall v | 0 <= v && v * PGSIZE < sz :: HasTable(mem, d, v)
  {
    hide Look, UserPte, Sound, HasTable;
    forall v | 0 <= v && v * PGSIZE < sz ensures HasTable(mem, d, v) {
      assert Present(Look(mem, d, v));
      TableThere(mem, own, d, v);
    }
  }

  /** copyout as seen in the bytes below sz. */
  lemma CopiedView(mem: seq<Page>, mem2: seq<Page>, d: nat, sz: nat, va: nat, s: seq<Byte>)
    requires Copied(mem, mem2, d, va, s) && va + |s| <= sz <= USERTOP
    ensures View(mem2, d, sz)[va..va + |s|] == s
    ensures forall a | 0 <= a < sz && !(va <= a < va + |s|) :: View(mem2, d, sz)[a] == View(mem, d, sz)[a]
  {
    hide UserByte;
  }

  /** No byte outside the stack page has changed. */
  ghost predicate BelowSame(mem: seq<Page>, mem2: seq<Page>, d: nat, sz: nat) {
    d < |mem| == |mem2| && forall a | 0 <= a < USERTOP && !(sz - PGSIZE <= a < sz) ::
      UserByte(mem2, d, a) == UserByte(mem, d, a)
  }

  lemma BelowMore(mem: seq<Page>, mem1: seq<Page>, mem2: seq<Page>, d: nat, sz: nat, va: nat, s: seq<Byte>)
    requires BelowSame(mem, mem1, d, sz) && Copied(mem1, mem2, d, va, s) && sz - PGSIZE <= va && va + |s| <= sz
    ensures BelowSame(mem, mem2, d, sz)
  {
    hide UserByte;
  }

  /** Words as the bytes copyout moves. */
  function Flat(ws: seq<Word>): (s: seq<Byte>)
    ensures |s| == 4 * |ws|
  {
    if ws == [] then [] else Flat(ws[..|ws| - 1]) + Bytes(ws[|ws| - 1])
  }

  lemma {:induction false} FlatAt(ws: seq<Word>, i: nat)
    requires i < |ws|
    ensures Flat(ws)[4 * i..4 * i + 4] == Bytes(ws[i])
    decreases |ws|
  {
    var init := ws[..|ws| - 1];
    if i < |ws| - 1 {
      FlatAt(init, i);
      assert Flat(ws)[4 * i..4 * i + 4] == Flat(init)[4 * i..4 * i + 4];
    }
  }

  function WordAt(m: seq<Byte>, a: nat): Word
    requires a + 4 <= |m|
  {
    Load(m[a..a + 4])
  }

  /** What main finds: argc, argv, and behind argv a pointer to each string and a null pointer. */
  ghost predicate StackHolds(m: seq<Byte>, sp: nat, argv: seq<Str>) {
    && sp + 4 * (|argv| + 4) <= |m|
    && WordAt(m, sp) == 0xffffffff && WordAt(m, sp + 4) == |argv| && WordAt(m, sp + 8) == sp + 12
    && WordAt(m, sp + 12 + 4 * |argv|) == 0
    && forall i | 0 <= i < |argv| :: StringIn(m, WordAt(m, sp + 12 + 4 * i), argv[i])
  }

  /** The bytes of s and a NUL are at a. */
  ghost predicate StringIn(m: seq<Byte>, a: nat, s: Str) {
    a + |s| + 1 <= |m| && m[a..a + |s|] == s && m[a + |s|] == 0
  }

  /** The string a C program reads at a. */
  function StringAt(m: seq<Byte>, a: nat): Str
    decreases |m| - a
  {
    if a >= |m| || m[a] == 0 then [] else [m[a]] + StringAt(m, a + 1)
  }

  lemma {:induction false} StringRead(m: seq<Byte>, a: nat, s: Str)
    requires StringIn(m, a, s) && 0 !in s
    ensures StringAt(m, a) == s
    decreases |s|
  {
    if s != [] {
      assert m[a] == m[a..a + |s|][0] == s[0];
      assert m[a + 1..a + |s|] == s[1..];
      StringRead(m, a + 1, s[1..]);
    }
  }

  /** argv as main decodes it from its stack pointer. */
  function Decode(m: seq<Byte>, sp: nat): seq<Str> {
    if sp + 12 > |m| then []
    else
      var argc, argv := WordAt(m, sp + 4), WordAt(m, sp + 8);
      seq(argc, i requires 0 <= i => if argv + 4 * i + 4 <= |m| then StringAt(m, WordAt(m, argv + 4 * i)) else [])
  }

  /** Decoding gives back exactly the strings exec was given. */
  lemma Decoded(m: seq<Byte>, sp: nat, argv: seq<Str>)
    requires StackHolds(m, sp, argv) && forall i | 0 <= i < |argv| :: 0 !in argv[i]
    ensures Decode(m, sp) == argv
  {
    forall i | 0 <= i < |argv| ensures StringAt(m, WordAt(m, sp + 12 + 4 * i)) == argv[i] {
      assert StringIn(m, WordAt(m, sp + 12 + 4 * i), argv[i]);
      StringRead(m, WordAt(m, sp + 12 + 4 * i), argv[i]);
    }
  }

  lemma {:induction false} SpDown(sz: int, argv: seq<Str>, j: nat, k: nat)
    requires j <= k <= |argv|
    ensures SpAt(sz, argv, k) <= SpAt(sz, argv, j) <= sz
    decreases k
  {
    if k > 0 && j < k {
      SpDown(sz, argv, j, k - 1);
    } else if k > 0 {
      SpDown(sz, argv, 0, k - 1);
    }
  }

  lemma FourTimes(q: int)
    ensures 4 * q % 4 == 0
  {
  }

  lemma Down4Aligned(x: int)
    ensures Down4(x) % 4 == 0 && x - 4 < Down4(x) <= x
  {
    FourTimes(x / 4);
    assert Down4(x) == 4 * (x / 4);
  }

  lemma SpAligned(sz: nat, argv: seq<Str>, k: nat)
    requires k <= |argv| && sz % PGSIZE == 0
    ensures SpAt(sz, argv, k) % 4 == 0
  {
    if k == 0 {
      FourTimes(sz / PGSIZE * 1024);
      assert sz == 4 * (sz / PGSIZE * 1024);
    } else {
      Down4Aligned(SpAt(sz, argv, k - 1) - (|argv[k - 1]| + 1));
      hide Down4;
    }
  }

  /** A push from within the stack page reaches the guard page exactly when it leaves the stack page. */
  lemma PushFits(mem: seq<Page>, d: nat, sz: nat, from: nat, to: nat, n: nat)
    requires Image(mem, d, sz) && sz - PGSIZE <= from <= sz && from - 4 < to + n <= from && n > 0
    ensures (forall a | to <= a < to + n :: UserAt(mem, d, a)) <==> to >= sz - PGSIZE
  {
    hide UserAt;
    if to < sz - PGSIZE {
      var a := if to + n > sz - PGSIZE then sz - PGSIZE - 1 else to + n - 1;
      ImagePages(mem, d, sz, a);
      assert to <= a < to + n;
    } else {
      forall a | to <= a < to + n ensures UserAt(mem, d, a) { ImagePages(mem, d, sz, a); }
    }
  }

  /** A store below a string leaves it alone. */
  lemma StringStays(m: seq<Byte>, m2: seq<Byte>, a: nat, s: Str, low: nat)
    requires StringIn(m, a, s) && |m2| == |m| && low <= a && forall k | low <= k < |m| :: m2[k] == m[k]
    ensures StringIn(m2, a, s)
  {
    assert m2[a..a + |s|] == m[a..a + |s|];
  }

  /** The strings pushed so far, and the pointers kept for them. */
  ghost predicate Pushed(m: seq<Byte>, ptrs: seq<Word>, sz: nat, argv: seq<Str>) {
    |ptrs| <= |argv| && forall i | 0 <= i < |ptrs| :: ptrs[i] == SpAt(sz, argv, i + 1) && StringIn(m, ptrs[i], argv[i])
  }

  lemma PushedBelow(m: seq<Byte>, m2: seq<Byte>, ptrs: seq<Word>, sz: nat, argv: seq<Str>)
    requires Pushed(m, ptrs, sz, argv) && |m2| == |m|
    requires forall a | 0 <= a < |m| && a >= SpAt(sz, argv, |ptrs|) :: m2[a] == m[a]
    ensures Pushed(m2, ptrs, sz, argv)
  {
    hide StringIn, SpAt;
    forall i | 0 <= i < |ptrs| ensures StringIn(m2, ptrs[i], argv[i]) {
      SpDown(sz, argv, i + 1, |ptrs|);
      StringStays(m, m2, ptrs[i], argv[i], ptrs[i]);
    }
  }

  /** One string more. */
  lemma PushedMore(m: seq<Byte>, m2: seq<Byte>, ptrs: seq<Word>, sz: nat, argv: seq<Str>, sp: Word)
    requires Pushed(m, ptrs, sz, argv) && |m2| == |m| && |ptrs| < |argv| && sp == SpAt(sz, argv, |ptrs| + 1)
    requires forall a | 0 <= a < |m| && a >= SpAt(sz, argv, |ptrs|) :: m2[a] == m[a]
    requires StringIn(m2, sp, argv[|ptrs|])
    ensures Pushed(m2, ptrs + [sp], sz, argv)
  {
    PushedBelow(m, m2, ptrs, sz, argv);
    hide StringIn, SpAt;
  }

  lemma StringPushed(m: seq<Byte>, a: nat, s: Str)
    requires a + |s| + 1 <= |m| && m[a..a + |s| + 1] == s + [0]
    ensures StringIn(m, a, s)
  {
    assert m[a..a + |s|] == m[a..a + |s| + 1][..|s|];
    assert m[a + |s|] == m[a..a + |s| + 1][|s|];
  }

  /** What a push does to memory: nothing but bytes of d, and if it is done, nothing but the stack page. */
  ghost predicate PushedTo(mem: seq<Page>, own: seq<Owner>, mem2: seq<Page>, d: nat, sz: nat, ok: bool) {
    Stored(mem, own, mem2, d) && (ok ==> BelowSame(mem, mem2, d, sz))
  }

  /** The first loop of exec's argument handling. */
  method PushStrings(k: Kmem, d: nat, sz: Word, argv: seq<Str>, ustack: array<Word>) returns (r: int, sp: Word)
    requires Good(k) && d < NF && k.own[d].Dir? && Image(k.mem, d, sz) && ustack.Length == 3 + MAXARG + 1
    requires InMemory(argv)
    modifies k, ustack
    ensures Good(k) && k.own == old(k.own) && k.free == old(k.free)
    ensures PushedTo(old(k.mem), k.own, k.mem, d, sz, r == 0) && (r == 0 || r == -1 || r == FAULT)
    ensures r == 0 <==> |argv| <= MAXARG && SpAt(sz, argv, |argv|) >= sz - PGSIZE
    ensures r == FAULT <==> exists j: nat :: j < MAXARG && FaultsAt(old(k.mem), d, sz, argv, j)
    ensures r == 0 ==> sp == SpAt(sz, argv, |argv|) && Image(k.mem, d, sz)
    ensures r == 0 ==> |argv| <= MAXARG && Pushed(View(k.mem, d, sz), ustack[3..3 + |argv|], sz, argv)
  {
    hide Chain, Listed, Sound, Look, Image, Stored, UserByte, Pushed, HasTable, KernelShut;
    ghost var mem0, own0 := k.mem, k.own;
    var argc := 0;
    sp := sz;
    ImageSize(mem0, d, sz);
    StoredNone(mem0, own0, d);
    BelowNone(mem0, d, sz);
    PushedNone(View(k.mem, d, sz), sz, argv);
    assert ustack[3..3] == [];
    while argc < |argv|
      invariant 0 <= argc <= |argv| && argc <= MAXARG && sp == SpAt(sz, argv, argc) && sz - PGSIZE <= sp <= sz
      invariant k.Valid() && k.own == own0 && k.free == old(k.free) && Sound(k.mem, own0) && Image(k.mem, d, sz)
      invariant PushedTo(mem0, own0, k.mem, d, sz, true)
      invariant Pushed(View(k.mem, d, sz), ustack[3..3 + argc], sz, argv)
    {
      SpDown(sz, argv, argc, |argv|);
      SpDown(sz, argv, argc + 1, |argv|);
      NoFaultYet(mem0, d, sz, argv, argc);
      if argc >= MAXARG {
        return -1, sp;
      }
      ghost var mem1 := k.mem;
      TablesOf(mem0, own0, mem1, d);
      r, sp := PushString(k, d, sz, argv, ustack, argc, sp);
      PushedMoreTo(mem0, own0, mem1, k.mem, d, sz, r == 0);
      SameFault(mem0, mem1, d, sz, argv, argc);
      if r < 0 {
        return;
      }
      argc := argc + 1;
    }
    NoFaultYet(mem0, d, sz, argv, argc);
    return 0, sp;
  }

  /** Strings that the caller holds in user memory. */
  predicate InMemory(argv: seq<Str>) {
    forall i | 0 <= i < |argv| :: |argv[i]| < USERTOP
  }

  /** The j-th string takes the stack pointer below zero, and no page table covers where it comes out. */
  ghost predicate FaultsAt(mem: seq<Page>, d: nat, sz: int, argv: seq<Str>, j: nat) {
    && d < |mem| && j < |argv| && SpAt(sz, argv, j) >= sz - PGSIZE && 0 <= SpAt(sz, argv, j + 1) + UINT < UINT
    && !HasTable(mem, d, (SpAt(sz, argv, j + 1) + UINT) / PGSIZE)
  }

  /** Where the strings have not yet left the stack page, only the next one can fault. */
  lemma NoFaultYet(mem: seq<Page>, d: nat, sz: nat, argv: seq<Str>, argc: nat)
    requires argc <= |argv| && SpAt(sz, argv, argc) >= sz - PGSIZE && sz >= 2 * PGSIZE
    ensures forall j: nat | FaultsAt(mem, d, sz, argv, j) :: j >= argc
    ensures argc < |argv| && SpAt(sz, argv, argc + 1) < sz - PGSIZE ==>
      forall j: nat | FaultsAt(mem, d, sz, argv, j) :: j == argc
  {
    hide SpAt, HasTable;
    forall j: nat | FaultsAt(mem, d, sz, argv, j) ensures j >= argc {
      if j < argc { SpDown(sz, argv, j + 1, argc); }
    }
    if argc < |argv| && SpAt(sz, argv, argc + 1) < sz - PGSIZE {
      forall j: nat | FaultsAt(mem, d, sz, argv, j) ensures j == argc {
        if j > argc { SpDown(sz, argv, argc + 1, j); }
      }
    }
  }

  lemma TablesOf(mem: seq<Page>, own: seq<Owner>, mem2: seq<Page>, d: nat)
    requires Stored(mem, own, mem2, d) && d < |own| && own[d].Dir?
    ensures d < |mem| == |mem2| && mem2[d] == mem[d]
  {
    TablesStay(mem, own, mem2, d);
  }

  lemma SameFault(mem: seq<Page>, mem2: seq<Page>, d: nat, sz: nat, argv: seq<Str>, j: nat)
    requires d < |mem| == |mem2| && mem2[d] == mem[d]
    ensures FaultsAt(mem2, d, sz, argv, j) == FaultsAt(mem, d, sz, argv, j)
  {
  }

  lemma PushedNone(m: seq<Byte>, sz: nat, argv: seq<Str>)
    ensures Pushed(m, [], sz, argv)
  {
  }

  lemma PushedMoreTo(mem: seq<Page>, own: seq<Owner>, mem1: seq<Page>, mem2: seq<Page>, d: nat, sz: nat, ok: bool)
    requires PushedTo(mem, own, mem1, d, sz, true) && PushedTo(mem1, own, mem2, d, sz, ok)
    ensures PushedTo(mem, own, mem2, d, sz, ok)
  {
    StoredMore(mem, own, mem1, mem2, d);
    hide Stored, UserByte;
  }

  /** One round of the loop. */
  method PushString(k: Kmem, d: nat, sz: Word, argv: seq<Str>, ustack: array<Word>, argc: nat, sp0: Word)
    returns (r: int, sp: Word)
    requires Good(k) && d < NF && k.own[d].Dir? && Image(k.mem, d, sz) && ustack.Length == 3 + MAXARG + 1
    requires argc < |argv| && argc < MAXARG && sp0 == SpAt(sz, argv, argc) && sz - PGSIZE <= sp0 <= sz
    requires |argv[argc]| < USERTOP && Pushed(View(k.mem, d, sz), ustack[3..3 + argc], sz, argv)
    modifies k, ustack
    ensures Good(k) && k.own == old(k.own) && k.free == old(k.free)
    ensures PushedTo(old(k.mem), k.own, k.mem, d, sz, r == 0) && Image(k.mem, d, sz)
    ensures (r == 0 || r == -1 || r == FAULT) && (r == FAULT <==> FaultsAt(old(k.mem), d, sz, argv, argc))
    ensures r == 0 <==> SpAt(sz, argv, argc + 1) >= sz - PGSIZE
    ensures r == 0 ==> sp == SpAt(sz, argv, argc + 1) <= sz
    ensures r == 0 ==> Pushed(View(k.mem, d, sz), ustack[3..3 + argc + 1], sz, argv)
  {
    hide Chain, Listed, Sound, Look, Pushed, StringIn, UserAt, Stored, UserByte, Copied, View, HasTable, KernelShut,
      Image, Uncovered;
    ghost var mem0, own0, u := k.mem, k.own, ustack[3..3 + argc];
    ImageSize(mem0, d, sz);
    SpAligned(sz, argv, argc);
    var x := (sp0 - (|argv[argc]| + 1)) % UINT;
    sp := Down4(x);
    WrapDown(sp0 - (|argv[argc]| + 1), x);
    var s := argv[argc] + [0];
    PushStops(mem0, own0, d, sz, sp0, SpAt(sz, argv, argc + 1), sp, |s|);
    r := Copyout(k, d, sp, s);
    ImageStays(mem0, own0, k.mem, d, sz);
    if r < 0 {
      return;
    }
    StringCopied(mem0, k.mem, d, sz, u, argv, sp);
    BelowNone(mem0, d, sz);
    BelowMore(mem0, mem0, k.mem, d, sz, sp, s);
    ustack[3 + argc] := sp;
    assert ustack[3..3 + argc + 1] == u + [sp];
  }

  /** The 32-bit stack pointer. */
  lemma WrapDown(a: int, x: int)
    requires 0 <= a + UINT && a < UINT && x == a % UINT
    ensures 0 <= Down4(x) < UINT && Down4(x) == if a >= 0 then Down4(a) else Down4(a) + UINT
    ensures a < 0 <==> Down4(a) < 0
  {
    Down4Aligned(a);
    Down4Aligned(x);
    if a < 0 { Down4Shift(a, 0x4000_0000); }
  }

  lemma Down4Shift(a: int, q: int)
    ensures Down4(a + 4 * q) == Down4(a) + 4 * q
  {
  }

  /** Where a push stops: on the guard page or further down, where there are tables, or past zero in the kernel's
      half. */
  lemma PushStops(mem: seq<Page>, own: seq<Owner>, d: nat, sz: nat, from: nat, to: int, sp: nat, n: nat)
    requires Image(mem, d, sz) && Sound(mem, own) && d < |own| && own[d].Dir? && n > 0 && n <= USERTOP
    requires sz - PGSIZE <= from <= sz && from - 4 < to + n <= from && sp == if to >= 0 then to else to + UINT
    ensures sp < UINT && ((forall a | sp <= a < sp + n :: UserAt(mem, d, a)) <==> to >= sz - PGSIZE)
    ensures Uncovered(mem, d, sp, n) <==> to < 0 && !HasTable(mem, d, sp / PGSIZE)
  {
    hide HasTable, KernelShut, Look, Image, Sound, UserAt, Uncovered;
    ImageSize(mem, d, sz);
    if to >= 0 {
      PushFits(mem, d, sz, from, to, n);
      Covered(mem, own, d, sz, sp, n);
    } else {
      BeyondUser(mem, d, sp, n);
    }
  }

  lemma Covered(mem: seq<Page>, own: seq<Owner>, d: nat, sz: nat, sp: nat, n: nat)
    requires Image(mem, d, sz) && Sound(mem, own) && d < |own| && own[d].Dir? && sp + n <= sz
    ensures !Uncovered(mem, d, sp, n)
  {
    hide HasTable, KernelShut, Look, Image, Sound, UserAt;
    ImageTables(mem, own, d, sz);
    forall m: nat | StopsAt(mem, d, sp, n, m) ensures HasTable(mem, d, (sp + m) / PGSIZE) {
      PageBelow(sp + m, sz);
    }
  }

  lemma BeyondUser(mem: seq<Page>, d: nat, sp: nat, n: nat)
    requires d < |mem| && USERTOP <= sp < UINT && n > 0
    ensures !UserAt(mem, d, sp) && (Uncovered(mem, d, sp, n) <==> !HasTable(mem, d, sp / PGSIZE))
  {
    hide HasTable, Look;
    assert StopsAt(mem, d, sp, n, 0);
    assert forall m: nat | StopsAt(mem, d, sp, n, m) :: m == 0;
  }

  lemma PageBelow(a: nat, sz: nat)
    requires a < sz
    ensures a / PGSIZE * PGSIZE < sz
  {
  }

  lemma BelowNone(mem: seq<Page>, d: nat, sz: nat)
    requires d < |mem|
    ensures BelowSame(mem, mem, d, sz)
  {
  }

  lemma StringCopied(mem: seq<Page>, mem2: seq<Page>, d: nat, sz: nat, u: seq<Word>, argv: seq<Str>, sp: Word)
    requires d < |mem| == |mem2| && sz <= USERTOP && |u| < |argv|
    requires sp == SpAt(sz, argv, |u| + 1) <= SpAt(sz, argv, |u|) - |argv[|u|]| - 1
    requires SpAt(sz, argv, |u|) <= sz && Pushed(View(mem, d, sz), u, sz, argv)
    requires Copied(mem, mem2, d, sp, argv[|u|] + [0])
    ensures Pushed(View(mem2, d, sz), u + [sp], sz, argv)
  {
    hide UserByte, Pushed, StringIn, SpAt, View, Copied;
    CopiedView(mem, mem2, d, sz, sp, argv[|u|] + [0]);
    StringPushed(View(mem2, d, sz), sp, argv[|u|]);
    PushedMore(View(mem, d, sz), View(mem2, d, sz), u, sz, argv, sp);
  }

  /** exec from the pushing of arguments on: it succeeds exactly when there are at most MAXARG strings and they and the
      vector fit in the stack page, and then main finds them. */
  method PushArgs(k: Kmem, d: nat, sz: Word, argv: seq<Str>) returns (r: int, esp: Word)
    requires Good(k) && d < NF && k.own[d].Dir? && Image(k.mem, d, sz) && InMemory(argv)
    modifies k
    ensures Good(k) && k.own == old(k.own) && k.free == old(k.free)
    ensures PushedTo(old(k.mem), k.own, k.mem, d, sz, r == 0)
    ensures r == 0 || r == -1 || r == FAULT
    ensures r == 0 <==> Fits(sz, argv)
    ensures r == FAULT <==> exists j: nat :: j < MAXARG && FaultsAt(old(k.mem), d, sz, argv, j)
    ensures r == 0 ==> esp == Final(sz, argv) && Image(k.mem, d, sz) && StackHolds(View(k.mem, d, sz), esp, argv)
  {
    hide Chain, Listed, Sound, Look, Pushed, StackHolds, SpAt, UserAt, Flat, Stored, UserByte, Copied, View, Image,
      HasTable, KernelShut, Uncovered, FaultsAt;
    ghost var mem0, own0 := k.mem, k.own;
    var ustack := new Word[3 + MAXARG + 1];
    var sp;
    r, sp := PushStrings(k, d, sz, argv, ustack);
    esp := 0;
    ImageSize(mem0, d, sz);
    if r < 0 {
      NoFit(sz, argv);
      return;
    }
    var argc := |argv|;
    ghost var mem1, u0 := k.mem, ustack[3..3 + argc];
    ustack[3 + argc] := 0;
    ustack[0] := 0xffffffff;
    ustack[1] := argc;
    ustack[2] := sp - (argc + 1) * 4;
    ghost var u := ustack[..3 + argc + 1];
    esp := sp - (3 + argc + 1) * 4;
    SpDown(sz, argv, 0, argc);
    ImageSize(mem1, d, sz);
    PushStops(mem1, own0, d, sz, sp, esp, esp, 4 * (argc + 4));
    r := Copyout(k, d, esp, Flat(ustack[..3 + argc + 1]));
    VectorCopied(mem0, own0, mem1, k.mem, d, sz, u0, u, argv, esp, r == 0);
  }

  lemma NoFit(sz: int, argv: seq<Str>)
    ensures !(|argv| <= MAXARG && SpAt(sz, argv, |argv|) >= sz - PGSIZE) ==> !Fits(sz, argv)
  {
    hide SpAt;
  }

  /** At most MAXARG strings, and they and the vector fit in one page. */
  predicate Fits(sz: int, argv: seq<Str>) {
    |argv| <= MAXARG && Final(sz, argv) >= sz - PGSIZE
  }

  lemma VectorCopied(mem0: seq<Page>, own0: seq<Owner>, mem1: seq<Page>, mem2: seq<Page>, d: nat, sz: nat,
                     u0: seq<Word>, u: seq<Word>, argv: seq<Str>, esp: Word, ok: bool)
    requires PushedTo(mem0, own0, mem1, d, sz, true) && Stored(mem1, own0, mem2, d) && Image(mem1, d, sz) && d < |own0|
    requires own0[d].Dir?
    requires |u0| == |argv| && Pushed(View(mem1, d, sz), u0, sz, argv) && |u| == |argv| + 4 && u[3..3 + |argv|] == u0
    requires u[0] == 0xffffffff && u[1] == |argv| && u[2] == esp + 12 && u[3 + |argv|] == 0
    requires SpAt(sz, argv, |argv|) <= sz
    requires esp == Final(sz, argv) && (ok ==> esp >= sz - PGSIZE && Copied(mem1, mem2, d, esp, Flat(u)))
    ensures PushedTo(mem0, own0, mem2, d, sz, ok)
    ensures Sound(mem2, own0) && Image(mem2, d, sz)
    ensures ok ==> StackHolds(View(mem2, d, sz), esp, argv)
  {
    hide Sound, Look, UserByte, Pushed, StackHolds, SpAt, View, Copied, Flat, Stored;
    ImageStays(mem1, own0, mem2, d, sz);
    hide Image;
    if ok {
      BelowNone(mem1, d, sz);
      BelowMore(mem1, mem1, mem2, d, sz, esp, Flat(u));
      CopiedView(mem1, mem2, d, sz, esp, Flat(u));
      PushedBelow(View(mem1, d, sz), View(mem2, d, sz), u0, sz, argv);
      VectorHolds(View(mem2, d, sz), u0, u, sz, argv, esp);
    }
    PushedMoreTo(mem0, own0, mem1, mem2, d, sz, ok);
  }

  lemma VectorHolds(m: seq<Byte>, ptrs: seq<Word>, u: seq<Word>, sz: nat, argv: seq<Str>, sp: Word)
    requires |u| == |argv| + 4 && sp + 4 * |u| <= |m| && m[sp..sp + 4 * |u|] == Flat(u)
    requires |ptrs| == |argv| && Pushed(m, ptrs, sz, argv) && u[3..3 + |argv|] == ptrs
    requires u[0] == 0xffffffff && u[1] == |argv| && u[2] == sp + 12 && u[3 + |argv|] == 0
    ensures StackHolds(m, sp, argv)
  {
    hide WordAt, Flat, StringIn, SpAt;
    VectorWord(m, u, sp, 0);
    VectorWord(m, u, sp, 1);
    VectorWord(m, u, sp, 2);
    VectorWord(m, u, sp, 3 + |argv|);
    forall i | 0 <= i < |argv| ensures StringIn(m, WordAt(m, sp + 12 + 4 * i), argv[i]) {
      VectorWord(m, u, sp, 3 + i);
      assert u[3 + i] == u[3..3 + |argv|][i] == ptrs[i];
    }
  }

  lemma VectorWord(m: seq<Byte>, u: seq<Word>, sp: nat, i: nat)
    requires i < |u| && sp + 4 * |u| <= |m| && m[sp..sp + 4 * |u|] == Flat(u)
    ensures WordAt(m, sp + 4 * i) == u[i]
  {
    hide Flat, Load, Bytes;
    FlatAt(u, i);
    SliceOfSlice(m, sp, 4 * |u|, 4 * i, 4);
    var w := Bytes(u[i]);
    assert m[sp + 4 * i..sp + 4 * i + 4] == w;
  }

  lemma SliceOfSlice(m: seq<Byte>, a: nat, n: nat, i: nat, k: nat)
    requires a + n <= |m| && i + k <= n
    ensures m[a..a + n][i..i + k] == m[a + i..a + i + k]
  {
    var s := m[a..a + n];
    assert forall j | i <= j < i + k :: s[j] == m[a + j];
  }
}
