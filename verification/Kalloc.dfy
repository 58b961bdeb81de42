/** kalloc.c: the list of free physical pages, linked through the pages themselves. Pages are named by frame number,
    the physical address divided by the page size; 0 stands for the null pointer. */
module Kalloc {
  import opened Blocks

  const PGSIZE: nat := 4096
  const NENT: nat := 1024            // words in a page, entries in a page table
  const NF: nat := 57344             // PHYSTOP / PGSIZE

  type Page = p: seq<Word> | |p| == NENT witness seq(NENT, _ => 0)

  function Filled(w: Word): Page {
    seq(NENT, _ => w)
  }

  /** What a frame is for: free, a page directory, the i-th table of directory d, the page mapped through entry j of
      that table, or anything else the kernel holds. */
  datatype Owner = Free | Dir | Table(d: nat, i: nat) | User(d: nat, i: nat, j: nat) | Used

  /** The free list as memory holds it. */
  ghost predicate Chain(mem: seq<Page>, head: nat, free: seq<nat>)
    decreases |free|
  {
    if free == [] then head == 0
    else head == free[0] && 0 < head < |mem| && Chain(mem, mem[head][0], free[1..])
  }

  lemma {:induction false} ChainElsewhere(mem: seq<Page>, mem2: seq<Page>, head: nat, free: seq<nat>)
    requires Chain(mem, head, free) && |mem2| == |mem|
    requires forall f | f in free && f < |mem| :: mem2[f] == mem[f]
    ensures Chain(mem2, head, free)
    decreases |free|
  {
    if free != [] {
      assert forall f | f in free[1..] :: f in free;
      ChainElsewhere(mem, mem2, mem[head][0], free[1..]);
    }
  }

  /** Exactly the frames on the list are free, each once, and none below the end of the kernel is. */
  ghost predicate Listed(own: seq<Owner>, free: seq<nat>, first: nat) {
    && (forall f | 0 <= f < |own| :: own[f].Free? <==> f in free)
    && (forall f | f in free :: f < |own|)
    && (forall f | 0 <= f < |own| && !own[f].Used? :: f >= first)
    && (forall i, j | 0 <= i < j < |free| :: free[i] != free[j])
  }

  lemma ListedPush(own: seq<Owner>, free: seq<nat>, first: nat, f: nat)
    requires Listed(own, free, first) && first <= f < |own| && !own[f].Free?
    ensures Listed(own[f := Free], [f] + free, first)
  {
    var g := [f] + free;
    assert forall x :: x in g <==> x == f || x in free;
    assert f !in free;
    assert forall i | 1 <= i < |g| :: g[i] == free[i - 1] && g[i] in free;
  }

  lemma ListedPop(own: seq<Owner>, free: seq<nat>, first: nat, o: Owner)
    requires Listed(own, free, first) && free != [] && !o.Free?
    ensures free[0] < |own| && own[free[0]].Free? && free[0] >= first && Listed(own[free[0] := o], free[1..], first)
  {
    var f := free[0];
    assert f in free;
    assert forall x | x in free[1..] :: x in free && x != f;
    assert forall x | x in free && x != f :: x in free[1..];
  }

  lemma ListedAt(own: seq<Owner>, free: seq<nat>, first: nat, f: nat)
    requires Listed(own, free, first) && f < |own|
    ensures own[f].Free? <==> f in free
    ensures !own[f].Used? ==> f >= first
  {
  }

  class Kmem {
    const first: nat               // the first frame after the kernel
    var mem: seq<Page>             // physical memory
    var freelist: nat
    ghost var free: seq<nat>
    ghost var own: seq<Owner>

    ghost predicate Valid()
      reads this
    {
      0 < first && |mem| == NF && |own| == NF && Chain(mem, freelist, free) && Listed(own, free, first)
    }

    constructor (first0: nat, mem0: seq<Page>)
      requires 0 < first0 && |mem0| == NF
      ensures Valid() && free == [] && first == first0 && forall f | 0 <= f < NF :: own[f] == Used
    {
      first, mem, freelist, free := first0, mem0, 0, [];
      own := seq(NF, _ => Used);
    }

    /** A store to a frame that is not free. */
    method Set(f: nat, page: Page)
      requires Valid() && f < NF && !own[f].Free?
      modifies this`mem
      ensures Valid() && mem == old(mem)[f := page]
    {
      hide Listed;
      assert f !in free by { ListedAt(own, free, first, f); }
      ChainElsewhere(mem, mem[f := page], freelist, free);
      mem := mem[f := page];
    }

    /** What a held frame is for changes. */
    ghost method Tag(f: nat, o: Owner)
      requires Valid() && first <= f < NF && !own[f].Free? && !o.Free?
      modifies this`own
      ensures Valid() && own == old(own)[f := o]
    {
      own := own[f := o];
    }

    /** Several held frames are given up by what used them. */
    ghost method Untag(own2: seq<Owner>)
      requires Valid() && |own2| == NF
      requires forall f | 0 <= f < NF :: own2[f] == own[f] || (!own[f].Free? && own2[f].Used?)
      modifies this`own
      ensures Valid() && own == own2
    {
      own := own2;
    }

    /** kfree, of a frame the kernel held. */
    method Kfree(f: nat)
      requires Valid() && first <= f < NF && !own[f].Free?
      modifies this
      ensures Valid() && free == [f] + old(free) && own == old(own)[f := Free]
      ensures forall g | 0 <= g < NF && g != f :: mem[g] == old(mem[g])
    {
      ListedPush(own, free, first, f);
      ghost var m := mem;
      mem := mem[f := Filled(0x01010101)];
      mem := mem[f := mem[f][0 := freelist]];
      ChainElsewhere(m, mem, freelist, free);
      freelist := f;
      free, own := [f] + free, own[f := Free];
      assert free[1..] == old(free);
      hide Listed;
    }

    /** kalloc: a frame off the list, or 0 when there is none. */
    method Kalloc() returns (f: nat)
      requires Valid()
      modifies this`freelist, this`free, this`own
      ensures Valid() && (f == 0 <==> old(free) == [])
      ensures f == 0 ==> free == old(free) && own == old(own)
      ensures f != 0 ==> first <= f < NF && old(own[f]).Free? && free == old(free)[1..] && own == old(own)[f := Used]
    {
      f := freelist;
      if f != 0 {
        ListedPop(own, free, first, Used);
        freelist := mem[f][0];
        own, free := own[f := Used], free[1..];
      }
      hide Listed;
    }

    /** freerange: every frame between two addresses. */
    method Freerange(start: nat, end: nat)
      requires Valid() && first <= (start + PGSIZE - 1) / PGSIZE && end / PGSIZE <= NF
      requires forall f | (start + PGSIZE - 1) / PGSIZE <= f < end / PGSIZE :: own[f] == Used
      modifies this
      ensures Valid() && forall f | 0 <= f < NF ::
                own[f] == if (start + PGSIZE - 1) / PGSIZE <= f < end / PGSIZE then Free else old(own[f])
    {
      hide Chain, Listed;
      var p := (start + PGSIZE - 1) / PGSIZE;
      ghost var p0 := p;
      while (p + 1) * PGSIZE <= end
        invariant Valid() && p0 <= p && (p <= end / PGSIZE || p == p0)
        invariant forall f | 0 <= f < NF :: own[f] == if p0 <= f < p then Free else old(own[f])
        decreases end - p * PGSIZE
      {
        Kfree(p);
        p := p + 1;
      }
    }
  }
}
