/** Two-level page tables in physical memory, read as a flat map, and who owns which frame. */
module PageMap {
  import opened Blocks
  import opened Kalloc

  const NPAGES: nat := 0x10_0000      // pages of a 32-bit address space
  const KPAGE: nat := 0x8_0000        // the page number of KERNBASE
  const KDIR: nat := 512              // PDX(KERNBASE)

  predicate Present(e: Word) { e % 2 == 1 }

  /** PTE_ADDR as a frame number, and PTE_FLAGS. */
  function Frame(e: Word): nat { e / PGSIZE }

  function Flags(e: Word): nat { e % PGSIZE }

  /** pa | perm | PTE_P, for a page-aligned pa. */
  function Entry(f: nat, perm: nat): (e: Word)
    requires f < NPAGES && perm < PGSIZE
    ensures Present(e) && Frame(e) == f && Flags(e) == if perm % 2 == 1 then perm else perm + 1
  {
    var flags := if perm % 2 == 1 then perm else perm + 1;
    Joined(f, flags);
    f * 4096 + flags
  }

  lemma Joined(f: nat, flags: nat)
    requires f < NPAGES && flags < PGSIZE && flags % 2 == 1
    ensures f * 4096 + flags < UINT && (f * 4096 + flags) % 2 == 1
    ensures (f * 4096 + flags) / 4096 == f && (f * 4096 + flags) % 4096 == flags
  {
    assert f * 4096 == 2 * (f * 2048);
  }

  /** The entry that maps page v under directory d, or 0. */
  function Look(mem: seq<Page>, d: nat, v: nat): Word
    requires d < |mem| && v < NPAGES
  {
    At(mem, d, v / NENT, v % NENT)
  }

  function At(mem: seq<Page>, d: nat, i: nat, j: nat): Word
    requires d < |mem| && i < NENT && j < NENT
  {
    var e := mem[d][i];
    if Present(e) && Frame(e) < |mem| then mem[Frame(e)][j] else 0
  }

  /** A present directory entry: PTE_P, PTE_W and PTE_U, so that access is decided by the table's entry alone. */
  predicate Passing(e: Word) { e % 8 == 7 }

  /** Every present directory entry is open to the user and leads to the table made for it, and every table has its
      entry. */
  ghost predicate Tables(mem: seq<Page>, own: seq<Owner>) {
    && |mem| == |own|
    && (forall d, i | 0 <= d < |mem| && own[d].Dir? && 0 <= i < NENT && Present(mem[d][i]) ::
          Passing(mem[d][i]) && Frame(mem[d][i]) < |mem| && own[Frame(mem[d][i])] == Table(d, i))
    && (forall t | 0 <= t < |own| && own[t].Table? ::
          own[t].d < |mem| && own[own[t].d].Dir? && own[t].i < NENT && Present(mem[own[t].d][own[t].i])
          && Frame(mem[own[t].d][own[t].i]) == t)
  }

  /** Every present entry of a user table leads to the page it was given, and every page has its entry. */
  ghost predicate Users(mem: seq<Page>, own: seq<Owner>)
    requires |mem| == |own|
  {
    && (forall t, j | 0 <= t < |mem| && own[t].Table? && own[t].i < KDIR && 0 <= j < NENT && Present(mem[t][j]) ::
          Frame(mem[t][j]) < |mem| && own[Frame(mem[t][j])] == User(own[t].d, own[t].i, j))
    && (forall p | 0 <= p < |own| && own[p].User? ::
          own[p].d < |mem| && own[own[p].d].Dir? && own[p].i < KDIR && own[p].j < NENT
          && Present(mem[own[p].d][own[p].i]) && Frame(mem[own[p].d][own[p].i]) < |mem|
          && Present(mem[Frame(mem[own[p].d][own[p].i])][own[p].j])
          && Frame(mem[Frame(mem[own[p].d][own[p].i])][own[p].j]) == p)
  }

  /** Page tables partition the frames they use. */
  ghost predicate Sound(mem: seq<Page>, own: seq<Owner>) {
    Tables(mem, own) && Users(mem, own)
  }

  /** Frames that are neither directories nor tables. */
  predicate Plain(o: Owner) { o.Free? || o.Used? || o.User? }

  /** Contents of plain frames, and frames passing between the free list and the kernel, do not matter. */
  lemma ScratchKeeps(mem: seq<Page>, own: seq<Owner>, mem2: seq<Page>, own2: seq<Owner>)
    requires Sound(mem, own) && |mem2| == |own2| == |mem|
    requires forall f | 0 <= f < |own| ::
      own2[f] == own[f] || ((own[f].Free? || own[f].Used?) && (own2[f].Free? || own2[f].Used?))
    requires forall f | 0 <= f < |own| && !Plain(own[f]) :: mem2[f] == mem[f]
    ensures Sound(mem2, own2)
    ensures forall d, v | 0 <= d < |own| && own[d].Dir? && 0 <= v < NPAGES :: Look(mem2, d, v) == Look(mem, d, v)
  {
    ScratchTables(mem, own, mem2, own2);
    ScratchUsers(mem, own, mem2, own2);
    hide Users;
    forall d, v | 0 <= d < |own| && own[d].Dir? && 0 <= v < NPAGES ensures Look(mem2, d, v) == Look(mem, d, v) {
      var i := v / NENT;
      assert mem2[d][i] == mem[d][i];
      assert Present(mem[d][i]) ==> own[Frame(mem[d][i])] == Table(d, i);
    }
  }

  lemma ScratchTables(mem: seq<Page>, own: seq<Owner>, mem2: seq<Page>, own2: seq<Owner>)
    requires Tables(mem, own) && |mem2| == |own2| == |mem|
    requires forall f | 0 <= f < |own| :: own2[f] == own[f] || (Plain(own[f]) && Plain(own2[f]))
    requires forall f | 0 <= f < |own| && !Plain(own[f]) :: mem2[f] == mem[f]
    ensures Tables(mem2, own2)
  {
  }

  lemma ScratchUsers(mem: seq<Page>, own: seq<Owner>, mem2: seq<Page>, own2: seq<Owner>)
    requires Sound(mem, own) && |mem2| == |own2| == |mem|
    requires forall f | 0 <= f < |own| ::
      own2[f] == own[f] || ((own[f].Free? || own[f].Used?) && (own2[f].Free? || own2[f].Used?))
    requires forall f | 0 <= f < |own| && !Plain(own[f]) :: mem2[f] == mem[f]
    ensures Users(mem2, own2)
  {
    forall p | 0 <= p < |own| && own2[p].User? ensures Backed(mem2, own2, p) {
      assert own[p].User? && Backed(mem, own, p);
      assert own[Frame(mem[own[p].d][own[p].i])] == Table(own[p].d, own[p].i);
    }
    hide Tables;
  }

  /** A page of zeros becomes a directory that maps nothing. */
  lemma NewDir(mem: seq<Page>, own: seq<Owner>, d: nat)
    requires Sound(mem, own) && d < |mem| && own[d].Used? && mem[d] == Filled(0)
    ensures Sound(mem, own[d := Dir]) && forall v | 0 <= v < NPAGES :: Look(mem, d, v) == 0
  {
    forall i | 0 <= i < NENT ensures !Present(mem[d][i]) {
      assert mem[d][i] == 0;
    }
  }

  /** A page of zeros becomes a table that maps nothing. */
  lemma NewTable(mem: seq<Page>, own: seq<Owner>, d: nat, i: nat, t: nat, e: Word)
    requires Sound(mem, own) && d < |mem| && own[d].Dir? && i < NENT && !Present(mem[d][i])
    requires t < |mem| && own[t].Used? && mem[t] == Filled(0) && Present(e) && Passing(e) && Frame(e) == t
    ensures Sound(mem[d := mem[d][i := e]], own[t := Table(d, i)])
    ensures At(mem[d := mem[d][i := e]], d, i, 0) == 0
    ensures forall d2, v | 0 <= d2 < |mem| && own[d2].Dir? && 0 <= v < NPAGES ::
              Look(mem[d := mem[d][i := e]], d2, v) == Look(mem, d2, v)
  {
    var mem2, own2 := mem[d := mem[d][i := e]], own[t := Table(d, i)];
    forall j | 0 <= j < NENT ensures mem[t][j] == 0 {}
    forall d2, v | 0 <= d2 < |mem| && own[d2].Dir? && 0 <= v < NPAGES ensures Look(mem2, d2, v) == Look(mem, d2, v) {
      var k := v / NENT;
      assert Present(mem[d2][k]) ==> own[Frame(mem[d2][k])] == Table(d2, k);
    }
    NewTableTables(mem, own, d, i, t, e);
    NewTableUsers(mem, own, d, i, t, e);
  }

  lemma NewTableTables(mem: seq<Page>, own: seq<Owner>, d: nat, i: nat, t: nat, e: Word)
    requires Tables(mem, own) && d < |mem| && own[d].Dir? && i < NENT && !Present(mem[d][i])
    requires t < |mem| && own[t].Used? && Present(e) && Passing(e) && Frame(e) == t
    ensures Tables(mem[d := mem[d][i := e]], own[t := Table(d, i)])
  {
  }

  lemma NewTableUsers(mem: seq<Page>, own: seq<Owner>, d: nat, i: nat, t: nat, e: Word)
    requires Sound(mem, own) && d < |mem| && own[d].Dir? && i < NENT && !Present(mem[d][i])
    requires t < |mem| && own[t].Used? && mem[t] == Filled(0) && Present(e) && Frame(e) == t
    ensures Users(mem[d := mem[d][i := e]], own[t := Table(d, i)])
  {
    var mem2, own2 := mem[d := mem[d][i := e]], own[t := Table(d, i)];
    forall j | 0 <= j < NENT ensures mem[t][j] == 0 {}
    forall p | 0 <= p < |own2| && own2[p].User? ensures Backed(mem2, own2, p) {
      assert own[p].User? && Backed(mem, own, p) && own[p].d != t;
    }
    hide Backed;
    forall u, j | 0 <= u < |mem2| && own2[u].Table? && own2[u].i < KDIR && 0 <= j < NENT && Present(mem2[u][j])
      ensures Frame(mem2[u][j]) < |mem2| && own2[Frame(mem2[u][j])] == User(own2[u].d, own2[u].i, j) {
      assert u != t && mem2[u] == mem[u] && own2[u] == own[u];
    }
    BackedAll(mem2, own2);
  }

  /** The page that entry j of the i-th table maps. */
  function Vpn(i: nat, j: nat): (v: nat)
    requires i < NENT && j < NENT
    ensures v < NPAGES && v / NENT == i && v % NENT == j
    ensures v < KPAGE <==> i < KDIR
  {
    i * 1024 + j
  }

  lemma VpnOnce(v: nat, i: nat, j: nat)
    requires v < NPAGES && i < NENT && j < NENT
    ensures v == Vpn(i, j) <==> v / NENT == i && v % NENT == j
  {
  }

  /** A store to one entry of a table changes the flat map at one page. */
  lemma SetLook(mem: seq<Page>, own: seq<Owner>, t: nat, j: nat, e: Word)
    requires Tables(mem, own) && t < |mem| && own[t].Table? && j < NENT && own[t].i < NENT
    ensures forall d, v | 0 <= d < |mem| && own[d].Dir? && 0 <= v < NPAGES ::
              Look(mem[t := mem[t][j := e]], d, v) == if d == own[t].d && v / NENT == own[t].i
                && v % NENT == j then e else Look(mem, d, v)
  {
    var mem2 := mem[t := mem[t][j := e]];
    forall d, v | 0 <= d < |mem| && own[d].Dir? && 0 <= v < NPAGES
      ensures Look(mem2, d, v) == if d == own[t].d && v / NENT == own[t].i && v % NENT == j then e
        else Look(mem, d, v) {
      assert Present(mem[d][v / NENT]) ==> own[Frame(mem[d][v / NENT])] == Table(d, v / NENT);
    }
  }

  lemma SetTables(mem: seq<Page>, own: seq<Owner>, t: nat, j: nat, e: Word, own2: seq<Owner>)
    requires Tables(mem, own) && t < |mem| && own[t].Table? && j < NENT && |own2| == |own|
    requires forall f | 0 <= f < |own| :: own2[f] == own[f] || (Plain(own[f]) && Plain(own2[f]))
    ensures Tables(mem[t := mem[t][j := e]], own2)
  {
  }

  lemma SetKernel(mem: seq<Page>, own: seq<Owner>, t: nat, j: nat, e: Word)
    requires Sound(mem, own) && t < |mem| && own[t].Table? && own[t].i >= KDIR && j < NENT
    ensures Sound(mem[t := mem[t][j := e]], own)
  {
    SetTables(mem, own, t, j, e, own);
    hide Tables;
    var mem2 := mem[t := mem[t][j := e]];
    forall p | 0 <= p < |own| && own[p].User? ensures Backed(mem2, own, p) {
      KernelApart(mem, own, t, p);
    }
  }

  /** Page p has its entry. */
  ghost predicate Backed(mem: seq<Page>, own: seq<Owner>, p: nat)
    requires |mem| == |own| && p < |own| && own[p].User?
  {
    && own[p].d < |mem| && own[own[p].d].Dir? && own[p].i < KDIR && own[p].j < NENT
    && Present(mem[own[p].d][own[p].i]) && Frame(mem[own[p].d][own[p].i]) < |mem|
    && Present(mem[Frame(mem[own[p].d][own[p].i])][own[p].j])
    && Frame(mem[Frame(mem[own[p].d][own[p].i])][own[p].j]) == p
  }

  /** The table a page's entry is in. */
  lemma KernelApart(mem: seq<Page>, own: seq<Owner>, t: nat, p: nat)
    requires Sound(mem, own) && t < |mem| && own[t].Table? && p < |own| && own[p].User?
    ensures Backed(mem, own, p) && own[p].d != t
    ensures own[Frame(mem[own[p].d][own[p].i])] == Table(own[p].d, own[p].i)
  {
  }

  lemma AddUser(mem: seq<Page>, own: seq<Owner>, t: nat, j: nat, p: nat, e: Word)
    requires Sound(mem, own) && t < |mem| && own[t].Table? && own[t].i < KDIR && j < NENT && !Present(mem[t][j])
    requires p < |mem| && own[p].Used? && Present(e) && Frame(e) == p
    ensures Sound(mem[t := mem[t][j := e]], own[p := User(own[t].d, own[t].i, j)])
  {
    var mem2, own2 := mem[t := mem[t][j := e]], own[p := User(own[t].d, own[t].i, j)];
    SetTables(mem, own, t, j, e, own2);
    assert own[own[t].d].Dir? && Present(mem[own[t].d][own[t].i]) && Frame(mem[own[t].d][own[t].i]) == t;
    hide Tables;
    forall q | 0 <= q < |own| && own2[q].User? ensures Backed(mem2, own2, q) {
      if q != p {
        KernelApart(mem, own, t, q);
      }
    }
  }

  lemma DropUser(mem: seq<Page>, own: seq<Owner>, t: nat, j: nat, o: Owner)
    requires Sound(mem, own) && t < |mem| && own[t].Table? && own[t].i < KDIR && j < NENT && Present(mem[t][j])
    requires o.Free? || o.Used?
    ensures Frame(mem[t][j]) < |mem| && own[Frame(mem[t][j])] == User(own[t].d, own[t].i, j)
    ensures Sound(mem[t := mem[t][j := 0]], own[Frame(mem[t][j]) := o])
  {
    var p := Frame(mem[t][j]);
    assert p < |mem| && own[p] == User(own[t].d, own[t].i, j);
    var mem2, own2 := mem[t := mem[t][j := 0]], own[p := o];
    SetTables(mem, own, t, j, 0, own2);
    forall q | 0 <= q < |own| && own2[q].User? ensures Backed(mem2, own2, q) {
      KernelApart(mem, own, t, q);
    }
    forall u, k | 0 <= u < |mem2| && own2[u].Table? && own2[u].i < KDIR && 0 <= k < NENT && Present(mem2[u][k])
      ensures Frame(mem2[u][k]) < |mem2| && own2[Frame(mem2[u][k])] == User(own2[u].d, own2[u].i, k) {
      EntryOnce(mem, own, t, j, u, k);
    }
  }

  /** No page is mapped twice. */
  lemma EntryOnce(mem: seq<Page>, own: seq<Owner>, t: nat, j: nat, u: nat, k: nat)
    requires Sound(mem, own) && t < |mem| && own[t].Table? && own[t].i < KDIR && j < NENT && Present(mem[t][j])
    requires u < |mem| && own[u].Table? && own[u].i < KDIR && k < NENT && Present(mem[u][k])
    ensures Frame(mem[u][k]) < |mem| && own[Frame(mem[u][k])] == User(own[u].d, own[u].i, k)
    ensures Frame(mem[u][k]) == Frame(mem[t][j]) ==> u == t && k == j
  {
    assert own[Frame(mem[u][k])] == User(own[u].d, own[u].i, k);
    assert own[Frame(mem[t][j])] == User(own[t].d, own[t].i, j);
    assert Frame(mem[own[t].d][own[t].i]) == t;
    assert Frame(mem[own[u].d][own[u].i]) == u;
  }

  /** clearpteu and the like: other flags, same frame. */
  lemma SetFlags(mem: seq<Page>, own: seq<Owner>, t: nat, j: nat, e: Word)
    requires Sound(mem, own) && t < |mem| && own[t].Table? && own[t].i < KDIR && j < NENT
    requires Present(e) == Present(mem[t][j]) && Frame(e) == Frame(mem[t][j])
    ensures Sound(mem[t := mem[t][j := e]], own)
  {
    var mem2 := mem[t := mem[t][j := e]];
    SetTables(mem, own, t, j, e, own);
    forall q | 0 <= q < |own| && own[q].User? ensures Backed(mem2, own, q) {
      KernelApart(mem, own, t, q);
      BackedStill(mem, mem2, own, t, q);
    }
    assert Users(mem, own);
    hide Tables, Backed;
    forall u, k | 0 <= u < |mem| && own[u].Table? && own[u].i < KDIR && 0 <= k < NENT && Present(mem2[u][k])
      ensures Frame(mem2[u][k]) < |mem| && own[Frame(mem2[u][k])] == User(own[u].d, own[u].i, k) {
      assert Present(mem[u][k]) && Frame(mem2[u][k]) == Frame(mem[u][k]);
    }
    BackedAll(mem2, own);
  }

  lemma BackedStill(mem: seq<Page>, mem2: seq<Page>, own: seq<Owner>, t: nat, q: nat)
    requires |mem2| == |mem| == |own| && q < |own| && own[q].User? && Backed(mem, own, q) && own[q].d != t
    requires forall u | 0 <= u < |mem| && u != t :: mem2[u] == mem[u]
    requires t < |mem|
    requires forall k | 0 <= k < NENT ::
      Present(mem2[t][k]) == Present(mem[t][k]) && Frame(mem2[t][k]) == Frame(mem[t][k])
    ensures Backed(mem2, own, q)
  {
  }

  lemma BackedAll(mem: seq<Page>, own: seq<Owner>)
    requires |mem| == |own| && forall q | 0 <= q < |own| && own[q].User? :: Backed(mem, own, q)
    requires forall u, k | 0 <= u < |mem| && own[u].Table? && own[u].i < KDIR && 0 <= k < NENT && Present(mem[u][k]) ::
               Frame(mem[u][k]) < |mem| && own[Frame(mem[u][k])] == User(own[u].d, own[u].i, k)
    ensures Users(mem, own)
  {
  }

  /** A directory that maps no user page can be given up with its tables. */
  function Undone(own: seq<Owner>, d: nat): (r: seq<Owner>)
    requires d < |own|
    ensures |r| == |own|
  {
    seq(|own|, f requires 0 <= f < |own| => if f == d || (own[f].Table? && own[f].d == d) then Used else own[f])
  }

  lemma Undo(mem: seq<Page>, own: seq<Owner>, d: nat)
    requires Sound(mem, own) && d < |mem| && own[d].Dir?
    requires forall f | 0 <= f < |own| :: !(own[f].User? && own[f].d == d)
    ensures Sound(mem, Undone(own, d))
  {
    var own2 := Undone(own, d);
    forall p | 0 <= p < |own2| && own2[p].User? ensures Backed(mem, own2, p) {
      assert own[p].User?;
    }
    assert Tables(mem, own2) by {
      forall t | 0 <= t < |own2| && own2[t].Table?
        ensures own2[t].d < |mem| && own2[own2[t].d].Dir? && own2[t].i < NENT && Present(mem[own2[t].d][own2[t].i])
          && Frame(mem[own2[t].d][own2[t].i]) == t {
        assert own[t] == own2[t];
      }
    }
  }
}
