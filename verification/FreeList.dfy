/** The free list of umalloc.c as a value: blocks in address order, the first being the static header `base`. */
module FreeList {
  const HDR: int := 8            // sizeof(Header)

  /** A block: its header's address and its size in headers. */
  datatype Blk = Blk(addr: int, units: int) {
    function End(): int { addr + HDR * units }
  }

  /** In address order, apart from each other, nothing left to coalesce. */
  ghost predicate Sorted(fl: seq<Blk>) {
    && |fl| >= 1 && fl[0].units == 0
    && (forall i | 1 <= i < |fl| :: fl[i].units > 0)
    && (forall i, j | 0 <= i < j < |fl| :: fl[i].End() < fl[j].addr)
  }

  predicate Apart(a: Blk, b: Blk) {
    a.End() <= b.addr || b.End() <= a.addr
  }

  /** Live blocks overlap neither each other nor the free ones. */
  ghost predicate Disjoint(fl: seq<Blk>, live: seq<Blk>) {
    && |fl| >= 1
    && (forall j | 0 <= j < |live| :: live[j].units > 0 && live[j].addr > fl[0].addr)
    && (forall i, j | 0 <= i < j < |live| :: Apart(live[i], live[j]))
    && (forall i, j | 0 <= i < |fl| && 0 <= j < |live| :: Apart(fl[i], live[j]))
  }

  function Units(bs: seq<Blk>): int
    decreases |bs|
  {
    if bs == [] then 0 else Units(bs[..|bs| - 1]) + bs[|bs| - 1].units
  }

  lemma {:induction false} UnitsConcat(a: seq<Blk>, b: seq<Blk>)
    ensures Units(a + b) == Units(a) + Units(b)
    decreases |b|
  {
    if b == [] {
      assert a + b == a;
    } else {
      assert (a + b)[..|a + b| - 1] == a + b[..|b| - 1];
      UnitsConcat(a, b[..|b| - 1]);
    }
  }

  lemma UnitsOne(b: Blk)
    ensures Units([b]) == b.units
  {
    assert [b][..0] == [];
  }

  /** Where block b goes: between the k-th free block and the next. */
  predicate Fits(fl: seq<Blk>, k: nat, b: Blk) {
    k < |fl| && fl[k].addr < b.addr && (k + 1 < |fl| ==> b.addr < fl[k + 1].addr)
  }

  /** b joined with the free block after it if they touch, and the index of the first free block left after it. */
  function JoinRight(fl: seq<Blk>, k: nat, b: Blk): (Blk, nat)
    requires Fits(fl, k, b)
  {
    if k + 1 < |fl| && b.End() == fl[k + 1].addr then (Blk(b.addr, b.units + fl[k + 1].units), k + 2) else (b, k + 1)
  }

  /** c after the k-th block, joined with it if they touch, and then the blocks from the n-th on. */
  function JoinLeft(fl: seq<Blk>, k: nat, c: Blk, n: nat): seq<Blk>
    requires k < n <= |fl|
  {
    if fl[k].End() == c.addr then fl[..k] + [Blk(fl[k].addr, fl[k].units + c.units)] + fl[n..]
    else fl[..k + 1] + [c] + fl[n..]
  }

  /** The list after free(b): b joined with its neighbours where they touch. */
  function Insert(fl: seq<Blk>, k: nat, b: Blk): seq<Blk>
    requires Fits(fl, k, b)
  {
    var (c, n) := JoinRight(fl, k, b);
    JoinLeft(fl, k, c, n)
  }

  /** Two touching blocks joined keep apart from whatever both keep apart from. */
  lemma JoinApart(a: Blk, b: Blk, x: Blk)
    requires a.End() == b.addr && Apart(a, x) && Apart(b, x) && x.units > 0
    ensures Apart(Blk(a.addr, a.units + b.units), x)
  {
  }

  lemma InsertSorted(fl: seq<Blk>, k: nat, b: Blk)
    requires Sorted(fl) && Fits(fl, k, b) && b.units > 0
    requires fl[k].End() <= b.addr && (k + 1 < |fl| ==> b.End() <= fl[k + 1].addr)
    ensures Sorted(Insert(fl, k, b)) && Insert(fl, k, b)[0] == fl[0]
  {
    SortedNext(fl, k);
    hide Units, Apart, Sorted, JoinLeft;
    var (c, n) := JoinRight(fl, k, b);
    JoinedSorted(fl, k, c, n);
  }

  lemma SortedNext(fl: seq<Blk>, k: nat)
    requires Sorted(fl) && k < |fl|
    ensures fl[0].addr <= fl[k].addr
    ensures k + 1 < |fl| ==> fl[k + 1].units > 0
    ensures k + 2 < |fl| ==> fl[k + 1].End() < fl[k + 2].addr
  {
    assert k > 0 ==> fl[0].End() < fl[k].addr;
  }

  lemma JoinedSorted(fl: seq<Blk>, k: nat, c: Blk, n: nat)
    requires Sorted(fl) && k < n <= |fl| && c.units > 0
    requires fl[k].End() <= c.addr && (n < |fl| ==> c.End() < fl[n].addr) && fl[0].addr < c.addr
    ensures Sorted(JoinLeft(fl, k, c, n)) && JoinLeft(fl, k, c, n)[0] == fl[0]
  {
    hide Units, Apart;
    assert k > 0 ==> fl[k].units > 0;
    if fl[k].End() == c.addr {
      Spliced(fl, fl[..k], Blk(fl[k].addr, fl[k].units + c.units), n);
    } else {
      Spliced(fl, fl[..k + 1], c, n);
    }
  }

  lemma Spliced(fl: seq<Blk>, l: seq<Blk>, c: Blk, n: nat)
    requires Sorted(fl) && 1 <= |l| <= n <= |fl| && l == fl[..|l|] && c.units > 0
    requires l[|l| - 1].End() < c.addr && (n < |fl| ==> c.End() < fl[n].addr)
    ensures Sorted(l + [c] + fl[n..])
  {
    hide Units, Apart;
    var r, m := l + [c] + fl[n..], |l|;
    forall i | 0 <= i < |r| ensures r[i] == if i < m then fl[i] else if i == m then c else fl[i - m - 1 + n] {}
    forall i, j | 0 <= i < j < |r| ensures r[i].End() < r[j].addr {
      if j == m {
        assert i < m - 1 ==> fl[i].End() < fl[m - 1].addr;
        assert m - 1 > 0 ==> fl[m - 1].units > 0;
        assert m - 1 == 0 ==> fl[0].units == 0;
      } else if i == m {
        assert j > m + 1 ==> fl[n].End() < fl[j - m - 1 + n].addr;
      }
    }
  }

  lemma InsertDisjoint(fl: seq<Blk>, live: seq<Blk>, j: nat, k: nat)
    requires Disjoint(fl, live) && j < |live| && Fits(fl, k, live[j])
    requires fl[k].End() == live[j].addr ==> k > 0
    ensures Disjoint(Insert(fl, k, live[j]), live[..j] + live[j + 1..])
  {
    hide Units, Apart, Sorted;
    var b, r, rest := live[j], Insert(fl, k, live[j]), live[..j] + live[j + 1..];
    forall i | 0 <= i < |rest| ensures rest[i] == live[if i < j then i else i + 1] {}
    forall q | 0 <= q < |rest| ensures Around(fl, b, rest[q]) {
      var p := if q < j then q else q + 1;
      ApartSym(live[p], b);
      assert Apart(b, live[p]);
    }
    forall i, q | 0 <= i < |r| && 0 <= q < |rest| ensures Apart(r[i], rest[q]) {
      InsertAround(fl, k, b, rest[q]);
    }
    assert r[0].addr == fl[0].addr;
  }

  lemma ApartSym(a: Blk, b: Blk)
    ensures Apart(a, b) == Apart(b, a)
  {
  }

  ghost predicate Around(fl: seq<Blk>, b: Blk, x: Blk) {
    x.units > 0 && Apart(b, x) && forall i | 0 <= i < |fl| :: Apart(fl[i], x)
  }

  lemma InsertAround(fl: seq<Blk>, k: nat, b: Blk, x: Blk)
    requires Fits(fl, k, b) && Around(fl, b, x)
    ensures forall i | 0 <= i < |Insert(fl, k, b)| :: Apart(Insert(fl, k, b)[i], x)
  {
    hide Units, Apart, Sorted;
    var (c, n) := JoinRight(fl, k, b);
    if n == k + 2 { JoinApart(b, fl[k + 1], x); }
    if fl[k].End() == c.addr { JoinApart(fl[k], c, x); }
  }

  /** free(b) turns a live block into free space and keeps both invariants. */
  lemma Inserted(fl: seq<Blk>, live: seq<Blk>, j: nat, k: nat)
    requires Sorted(fl) && Disjoint(fl, live) && j < |live| && Fits(fl, k, live[j])
    ensures Sorted(Insert(fl, k, live[j])) && Insert(fl, k, live[j])[0] == fl[0]
    ensures Disjoint(Insert(fl, k, live[j]), live[..j] + live[j + 1..])
    ensures Units(Insert(fl, k, live[j])) == Units(fl) + live[j].units
  {
    hide Units, Insert;
    assert Apart(fl[k], live[j]);
    assert k + 1 < |fl| ==> Apart(fl[k + 1], live[j]) && fl[k + 1].units > 0;
    assert k == 0 ==> fl[k].End() == fl[0].addr;
    InsertSorted(fl, k, live[j]);
    InsertDisjoint(fl, live, j, k);
    InsertUnits(fl, k, live[j]);
  }

  lemma InsertUnits(fl: seq<Blk>, k: nat, b: Blk)
    requires Fits(fl, k, b)
    ensures Units(Insert(fl, k, b)) == Units(fl) + b.units
  {
    hide JoinLeft;
    var (c, n) := JoinRight(fl, k, b);
    UnitsParts(fl, k);
    if n == k + 2 { UnitsParts(fl[k + 1..], 0); assert fl[k + 1..][1..] == fl[n..]; }
    assert Units([]) == 0;
    JoinedUnits(fl, k, c, n);
  }

  lemma JoinedUnits(fl: seq<Blk>, k: nat, c: Blk, n: nat)
    requires k < n <= |fl|
    ensures Units(JoinLeft(fl, k, c, n)) == Units(fl[..k]) + fl[k].units + c.units + Units(fl[n..])
  {
    if fl[k].End() == c.addr {
      UnitsMiddle(fl[..k], Blk(fl[k].addr, fl[k].units + c.units), fl[n..]);
    } else {
      UnitsMiddle(fl[..k + 1], c, fl[n..]);
      assert fl[..k + 1][..k] == fl[..k];
    }
  }

  lemma UnitsMiddle(l: seq<Blk>, c: Blk, r: seq<Blk>)
    ensures Units(l + [c] + r) == Units(l) + c.units + Units(r)
  {
    UnitsConcat(l, [c]);
    UnitsConcat(l + [c], r);
    UnitsOne(c);
  }

  lemma UnitsParts(bs: seq<Blk>, k: nat)
    requires k < |bs|
    ensures Units(bs) == Units(bs[..k]) + bs[k].units + Units(bs[k + 1..])
    ensures Units(bs) == Units(bs[..k + 1]) + Units(bs[k + 1..])
  {
    assert bs == bs[..k + 1] + bs[k + 1..];
    UnitsConcat(bs[..k + 1], bs[k + 1..]);
    assert bs[..k + 1][..k] == bs[..k];
  }

  /** The list after taking n units off the tail of block k, and the block taken. */
  function Take(fl: seq<Blk>, k: nat, n: int): (seq<Blk>, Blk)
    requires k < |fl| && fl[k].units >= n
  {
    if fl[k].units == n then (fl[..k] + fl[k + 1..], fl[k])
    else (fl[k := Blk(fl[k].addr, fl[k].units - n)], Blk(fl[k].addr + HDR * (fl[k].units - n), n))
  }

  lemma TakeUnits(fl: seq<Blk>, k: nat, n: int)
    requires k < |fl| && fl[k].units >= n
    ensures var (r, b) := Take(fl, k, n); Units(r) + n == Units(fl) && b.units == n
  {
    var (r, b) := Take(fl, k, n);
    UnitsParts(fl, k);
    if fl[k].units == n {
      UnitsConcat(fl[..k], fl[k + 1..]);
    } else {
      UnitsParts(r, k);
      assert r[..k] == fl[..k] && r[k + 1..] == fl[k + 1..];
    }
  }

  lemma TakeSorted(fl: seq<Blk>, k: nat, n: int)
    requires Sorted(fl) && k < |fl| && fl[k].units >= n >= 1
    ensures k > 0 && Sorted(Take(fl, k, n).0) && Take(fl, k, n).0[0] == fl[0]
    ensures Take(fl, k, n).1.addr > fl[0].addr
  {
    hide Units, Apart, Disjoint;
    assert fl[0].End() < fl[k].addr;
  }

  /** What the cut leaves, and the block cut off, lie inside the old block and apart from each other. */
  lemma TakeDisjoint(fl: seq<Blk>, live: seq<Blk>, k: nat, n: int)
    requires Sorted(fl) && Disjoint(fl, live) && k < |fl| && fl[k].units >= n >= 1
    ensures Disjoint(Take(fl, k, n).0, live + [Take(fl, k, n).1])
  {
    TakeSorted(fl, k, n);
    hide Units, Disjoint;
    var (r, b) := Take(fl, k, n);
    forall j | 0 <= j < |live| ensures TakenApart(r, b, live[j]) {
      LiveAround(fl, live, j);
      TakeAround(fl, k, n, live[j]);
    }
    forall i | 0 <= i < |r| ensures Apart(r[i], b) {
      TakeInner(fl, k, n, i);
    }
    LiveOnly(fl, live);
    TakeJoin(r, live, b);
  }

  ghost predicate TakenApart(r: seq<Blk>, b: Blk, x: Blk) {
    Apart(x, b) && forall i | 0 <= i < |r| :: Apart(r[i], x)
  }

  lemma LiveAround(fl: seq<Blk>, live: seq<Blk>, j: nat)
    requires Disjoint(fl, live) && j < |live|
    ensures forall i | 0 <= i < |fl| :: Apart(fl[i], live[j])
  {
  }

  lemma LiveOnly(fl: seq<Blk>, live: seq<Blk>)
    requires Disjoint(fl, live)
    ensures forall j | 0 <= j < |live| :: live[j].units > 0 && live[j].addr > fl[0].addr
    ensures forall i, j | 0 <= i < j < |live| :: Apart(live[i], live[j])
  {
  }

  lemma TakeAround(fl: seq<Blk>, k: nat, n: int, x: Blk)
    requires k < |fl| && fl[k].units >= n >= 1
    requires forall i | 0 <= i < |fl| :: Apart(fl[i], x)
    ensures TakenApart(Take(fl, k, n).0, Take(fl, k, n).1, x)
  {
    hide Units, Sorted, Disjoint;
    assert Apart(fl[k], x);
  }

  lemma TakeInner(fl: seq<Blk>, k: nat, n: int, i: nat)
    requires Sorted(fl) && k < |fl| && fl[k].units >= n >= 1 && i < |Take(fl, k, n).0|
    ensures Apart(Take(fl, k, n).0[i], Take(fl, k, n).1)
  {
    hide Units, Disjoint;
    if i > 0 && i >= k && fl[k].units == n {
      assert fl[k].End() < fl[i + 1].addr;
    }
  }

  lemma TakeJoin(r: seq<Blk>, live: seq<Blk>, b: Blk)
    requires |r| >= 1 && b.units > 0 && b.addr > r[0].addr
    requires forall j | 0 <= j < |live| :: live[j].units > 0 && live[j].addr > r[0].addr
    requires forall i, j | 0 <= i < j < |live| :: Apart(live[i], live[j])
    requires forall j | 0 <= j < |live| :: TakenApart(r, b, live[j])
    requires forall i | 0 <= i < |r| :: Apart(r[i], b)
    ensures Disjoint(r, live + [b])
  {
    hide Units, Sorted, Apart;
  }

  /** Freeing a block straight after taking it restores the list: the tail rejoins its block, a whole block returns
      to its place, and nothing else coalesces. */
  lemma FreeUndoesMalloc(fl: seq<Blk>, k: nat, n: int, j: nat)
    requires Sorted(fl) && k < |fl| && fl[k].units >= n >= 1
    requires Fits(Take(fl, k, n).0, j, Take(fl, k, n).1)
    ensures Insert(Take(fl, k, n).0, j, Take(fl, k, n).1) == fl
  {
    TakePlace(fl, k, n, j);
    hide Units, Apart;
    if fl[k].units == n {
      assert fl[k - 1].End() < fl[k].addr && (k + 1 < |fl| ==> fl[k].End() < fl[k + 1].addr);
    } else {
      assert k + 1 < |fl| ==> fl[k].End() < fl[k + 1].addr;
    }
    hide Sorted;
  }

  lemma SortedAddrs(fl: seq<Blk>)
    requires Sorted(fl)
    ensures forall i, j | 0 <= i < j < |fl| :: fl[i].addr < fl[j].addr
    ensures forall i | 0 <= i < |fl| :: fl[i].units >= 0 && fl[i].addr >= fl[0].addr
  {
    forall i, j | 0 <= i < j < |fl| ensures fl[i].addr < fl[j].addr {
      assert fl[i].End() < fl[j].addr;
    }
  }

  /** An address has at most one place. */
  lemma FitsOnce(fl: seq<Blk>, b: Blk, i: nat, j: nat)
    requires Sorted(fl) && Fits(fl, i, b) && Fits(fl, j, b)
    ensures i == j
  {
    SortedAddrs(fl);
    hide Sorted;
  }

  lemma TakePlace(fl: seq<Blk>, k: nat, n: int, j: nat)
    requires Sorted(fl) && k < |fl| && fl[k].units >= n >= 1
    requires Fits(Take(fl, k, n).0, j, Take(fl, k, n).1)
    ensures k > 0 && j == if fl[k].units == n then k - 1 else k
  {
    TakeSorted(fl, k, n);
    hide Units, Apart;
    var (r, b) := Take(fl, k, n);
    var at := if fl[k].units == n then k - 1 else k;
    assert r[at].End() <= b.addr && r[at].addr < b.addr;
    assert k + 1 < |fl| ==> fl[k].End() < fl[k + 1].addr;
    FitsOnce(r, b, at, j);
  }
}
