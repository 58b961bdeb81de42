/** vm.c: how many frames page tables take, so that running out of memory is never a matter of choice. */
module FrameCount {
  import opened Blocks
  import opened Kalloc
  import opened PageMap

  /** The entries from lo up to hi of a directory that lead to no table. */
  function Missing(pg: Page, lo: nat, hi: nat): (n: nat)
    requires lo <= hi <= NENT
    decreases hi
  {
    if lo == hi then 0 else Missing(pg, lo, hi - 1) + if Present(pg[hi - 1]) then 0 else 1
  }

  /** The tables that mapping pages lo up to hi takes. */
  function Lacks(pg: Page, lo: nat, hi: nat): nat
    requires hi <= NPAGES
  {
    if lo < hi then Missing(pg, lo / NENT, (hi - 1) / NENT + 1) else 0
  }

  /** Directory entry i is that of a page from lo up to hi. */
  predicate Serves(i: nat, lo: nat, hi: nat) {
    lo < hi && lo / NENT <= i <= (hi - 1) / NENT
  }

  /** With n frames free, m frames and the tables for pages lo up to hi were to be had: now n2 are free and the tables
      are
      there; or n were too few. */
  ghost predicate Charged(pg: Page, n: nat, pg2: Page, n2: nat, m: nat, lo: nat, hi: nat, ok: bool)
    requires hi <= NPAGES
  {
    if ok then
      n2 + m + Lacks(pg, lo, hi) == n
      && forall i | 0 <= i < NENT :: Present(pg2[i]) <==> Present(pg[i]) || Serves(i, lo, hi)
    else n < m + Lacks(pg, lo, hi)
  }

  lemma {:induction false} MissingSplit(pg: Page, lo: nat, mid: nat, hi: nat)
    requires lo <= mid <= hi <= NENT
    ensures Missing(pg, lo, hi) == Missing(pg, lo, mid) + Missing(pg, mid, hi)
    decreases hi
  {
    if mid < hi { MissingSplit(pg, lo, mid, hi - 1); }
  }

  /** Entries that are there up to mid and as in another directory from there on. */
  lemma {:induction false} MissingFrom(pg: Page, pg2: Page, lo: nat, mid: nat, hi: nat)
    requires lo <= mid <= hi <= NENT
    requires forall i | lo <= i < mid :: Present(pg2[i])
    requires forall i | mid <= i < hi :: Present(pg2[i]) == Present(pg[i])
    ensures Missing(pg2, lo, hi) == Missing(pg, mid, hi)
    decreases hi
  {
    if mid < hi {
      MissingFrom(pg, pg2, lo, mid, hi - 1);
    } else if lo < hi {
      MissingFrom(pg, pg2, lo, mid - 1, hi - 1);
    }
  }

  /** No entry is there. */
  lemma {:induction false} MissingAll(pg: Page, lo: nat, hi: nat)
    requires lo <= hi <= NENT && forall i | lo <= i < hi :: !Present(pg[i])
    ensures Missing(pg, lo, hi) == hi - lo
    decreases hi
  {
    if lo < hi { MissingAll(pg, lo, hi - 1); }
  }

  /** One page. */
  lemma ChargedOne(pg: Page, n: nat, pg2: Page, n2: nat, v: nat)
    requires v < NPAGES && if Present(pg[v / NENT]) then pg2 == pg && n2 == n
                           else Present(pg2[v / NENT]) && pg2 == pg[v / NENT := pg2[v / NENT]] && n2 + 1 == n
    ensures Charged(pg, n, pg2, n2, 0, v, v + 1, true)
  {
    assert Missing(pg, v / NENT, v / NENT) == 0;
  }

  lemma ChargedShort(pg: Page, v: nat)
    requires v < NPAGES && !Present(pg[v / NENT])
    ensures Charged(pg, 0, pg, 0, 0, v, v + 1, false)
  {
    assert Missing(pg, v / NENT, v / NENT) == 0;
  }

  /** First pages up to mid, then those up to hi, which may begin in the last table of the former. */
  lemma LacksSplit(pg: Page, pg1: Page, lo: nat, mid: nat, hi: nat)
    requires lo <= mid <= hi <= NPAGES
    requires forall i | 0 <= i < NENT :: Present(pg1[i]) <==> Present(pg[i]) || Serves(i, lo, mid)
    ensures Lacks(pg, lo, hi) == Lacks(pg, lo, mid) + Lacks(pg1, mid, hi)
    ensures forall i: nat :: Serves(i, lo, hi) <==> Serves(i, lo, mid) || Serves(i, mid, hi)
  {
    if mid < hi {
      var b, e := mid / NENT, (hi - 1) / NENT + 1;
      if lo < mid {
        var c := (mid - 1) / NENT + 1;
        MissingSplit(pg, lo / NENT, c, e);
        MissingFrom(pg, pg1, b, c, e);
      } else {
        MissingFrom(pg, pg1, b, b, e);
      }
    }
  }

  lemma ChargedMore(pg: Page, n: nat, pg1: Page, n1: nat, pg2: Page, n2: nat, m: nat, m2: nat, lo: nat, mid: nat,
                    hi: nat, ok: bool)
    requires lo <= mid <= hi <= NPAGES
    requires Charged(pg, n, pg1, n1, m, lo, mid, true) && Charged(pg1, n1, pg2, n2, m2, mid, hi, ok)
    ensures Charged(pg, n, pg2, n2, m + m2, lo, hi, ok)
  {
    LacksSplit(pg, pg1, lo, mid, hi);
    hide Lacks, Serves, Present;
  }

  lemma ChargedNone(pg: Page, n: nat, lo: nat)
    requires lo <= NPAGES
    ensures Charged(pg, n, pg, n, 0, lo, lo, true)
  {
  }

  /** Too little for some pages is too little for more. */
  lemma ChargedLess(pg: Page, n: nat, pg2: Page, n2: nat, pg3: Page, n3: nat, m: nat, m2: nat, lo: nat, mid: nat,
                    hi: nat)
    requires mid <= hi <= NPAGES && m <= m2 && Charged(pg, n, pg2, n2, m, lo, mid, false)
    ensures Charged(pg, n, pg3, n3, m2, lo, hi, false)
  {
    if lo < mid {
      MissingSplit(pg, lo / NENT, (mid - 1) / NENT + 1, (hi - 1) / NENT + 1);
    }
  }

  // setupkvm's directory and its tables for the kernel's memory and for the devices.
  const KERNFRAMES: nat := 1 + 56 + 8

  /** The frames of an address space of p user pages: setupkvm's, the pages, and a table for every NENT of them. */
  function Frames(p: nat): nat {
    KERNFRAMES + p + (p + NENT - 1) / NENT
  }

  lemma FramesMore(p: nat, q: nat)
    requires p <= q
    ensures KERNFRAMES <= Frames(p) <= Frames(q)
  {
  }

  /** Of n0 free frames a directory with its first p user pages has taken its part. */
  ghost predicate Paid(pg: Page, n: nat, n0: nat, p: nat) {
    n0 == n + Frames(p) && forall i | 0 <= i < KDIR :: Present(pg[i]) <==> i * NENT < p
  }

  lemma PaidEnough(pg: Page, n: nat, n0: nat, p: nat)
    requires Paid(pg, n, n0, p)
    ensures Frames(p) <= n0
  {
  }

  /** Pages p up to q more. */
  lemma PaidMore(pg: Page, n: nat, pg2: Page, n2: nat, n0: nat, p: nat, q: nat, ok: bool)
    requires p <= q <= KPAGE && Paid(pg, n, n0, p) && Charged(pg, n, pg2, n2, q - p, p, q, ok)
    ensures if ok then Paid(pg2, n2, n0, q) else n0 < Frames(q)
  {
    if p < q {
      var lo, c, e := p / NENT, (p + NENT - 1) / NENT, (q - 1) / NENT + 1;
      Ceiling(p, q);
      MissingFrom(Filled(0), pg, lo, c, e);
      MissingAll(Filled(0), c, e);
    }
  }

  lemma Ceiling(p: nat, q: nat)
    requires p < q <= KPAGE
    ensures var lo, c, e := p / NENT, (p + NENT - 1) / NENT, (q - 1) / NENT + 1;
      && lo <= c <= e <= KDIR && e == (q + NENT - 1) / NENT
      && (forall i: nat :: i * NENT < p <==> i < c) && (forall i: nat :: i * NENT < q <==> i < e)
  {
  }
}
