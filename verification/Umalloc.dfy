/** umalloc.c: the circular free list in memory, malloc, free and morecore. */
module Umalloc {
  import opened FreeList

  const MINUNITS: int := 4096

  /** The index after i on the ring. */
  function Next(n: nat, i: nat): (j: nat)
    requires i < n
    ensures j < n
  {
    if i + 1 < n then i + 1 else 0
  }

  /** How many steps lead from a to i, between 1 and n. */
  function Dist(n: nat, a: nat, i: nat): (d: int)
    requires a < n && i < n
    ensures 1 <= d <= n
  {
    if i > a then i - a else i - a + n
  }

  /** Memory holds the ring fl: each header has its size and the address of the next one. */
  ghost predicate Linked(fl: seq<Blk>, ptr: map<int, int>, size: map<int, int>) {
    forall i | 0 <= i < |fl| :: LinkedAt(fl, ptr, size, i)
  }

  ghost predicate LinkedAt(fl: seq<Blk>, ptr: map<int, int>, size: map<int, int>, i: nat)
    requires i < |fl|
  {
    var a := fl[i].addr;
    a in ptr && a in size && size[a] == fl[i].units && ptr[a] == fl[Next(|fl|, i)].addr
  }

  ghost predicate Sized(live: seq<Blk>, size: map<int, int>) {
    forall j | 0 <= j < |live| :: live[j].addr in size && size[live[j].addr] == live[j].units
  }

  ghost predicate Below(bs: seq<Blk>, top: int) {
    forall i | 0 <= i < |bs| :: bs[i].End() <= top
  }

  /** No live header is a free one. */
  lemma LiveAddrs(fl: seq<Blk>, live: seq<Blk>)
    requires Sorted(fl) && Disjoint(fl, live)
    ensures forall i, j | 0 <= i < |fl| && 0 <= j < |live| :: fl[i].addr != live[j].addr
    ensures forall i, j | 0 <= i < |live| && 0 <= j < |live| && i != j :: live[i].addr != live[j].addr
  {
    forall i, j | 0 <= i < |fl| && 0 <= j < |live| ensures fl[i].addr != live[j].addr {
      assert Apart(fl[i], live[j]);
    }
    forall i, j | 0 <= i < |live| && 0 <= j < |live| && i != j ensures live[i].addr != live[j].addr {
      assert i < j ==> Apart(live[i], live[j]);
      assert j < i ==> Apart(live[j], live[i]);
    }
  }

  /** Every address above the static header has its place in the list. */
  lemma {:induction false} Slot(fl: seq<Blk>, b: Blk, from: nat) returns (k: nat)
    requires from < |fl| && fl[from].addr < b.addr
    requires forall i | 0 <= i < |fl| :: fl[i].addr != b.addr
    ensures Fits(fl, k, b)
    decreases |fl| - from
  {
    if from + 1 == |fl| || b.addr < fl[from + 1].addr {
      k := from;
    } else {
      k := Slot(fl, b, from + 1);
    }
  }

  /** The header words free writes, as the two maps. */
  function FreedPtr(ptr: map<int, int>, size: map<int, int>, p: int, b: int): map<int, int>
    requires p in ptr && p in size && b in size && ptr[p] in ptr && p != b
  {
    var next := ptr[p];
    var q := ptr[b := if b + HDR * size[b] == next then ptr[next] else next];
    q[p := if p + HDR * size[p] == b then q[b] else b]
  }

  function FreedSize(ptr: map<int, int>, size: map<int, int>, p: int, b: int): map<int, int>
    requires p in ptr && p in size && b in size && ptr[p] in size && p != b
  {
    var next := ptr[p];
    var q := if b + HDR * size[b] == next then size[b := size[b] + size[next]] else size;
    if p + HDR * size[p] == b then q[p := q[p] + q[b]] else q
  }

  ghost predicate Placed(fl: seq<Blk>, k: nat, b: Blk, ptr: map<int, int>, size: map<int, int>) {
    && |fl| >= 1 && fl[0].addr < b.addr && b.units > 0
    && (forall i, j | 0 <= i < j < |fl| :: fl[i].addr < fl[j].addr)
    && (forall i | 0 <= i < |fl| :: fl[i].addr != b.addr)
    && Linked(fl, ptr, size) && b.addr in size && size[b.addr] == b.units
    && Fits(fl, k, b)
  }

  /** Blocks other than the freed one and its left neighbour keep their header words. */
  lemma FreedElsewhere(fl: seq<Blk>, k: nat, b: Blk, ptr: map<int, int>, size: map<int, int>, i: nat)
    requires Placed(fl, k, b, ptr, size) && i < |fl| && i != k
    requires fl[k].addr in ptr && fl[k].addr in size && ptr[fl[k].addr] in ptr && ptr[fl[k].addr] in size
    ensures var p, s := FreedPtr(ptr, size, fl[k].addr, b.addr), FreedSize(ptr, size, fl[k].addr, b.addr);
            var a := fl[i].addr;
            a in p && a in s && p[a] == ptr[a] && s[a] == size[a] && size[a] == fl[i].units
              && ptr[a] == fl[Next(|fl|, i)].addr
  {
    assert LinkedAt(fl, ptr, size, i);
    assert fl[i].addr != fl[k].addr by {
      assert i < k ==> fl[i].addr < fl[k].addr;
      assert k < i ==> fl[k].addr < fl[i].addr;
    }
  }

  /** The two headers free writes, in terms of the list. */
  lemma FreedHere(fl: seq<Blk>, k: nat, b: Blk, ptr: map<int, int>, size: map<int, int>)
    requires Placed(fl, k, b, ptr, size)
    requires fl[k].addr in ptr && fl[k].addr in size && ptr[fl[k].addr] in ptr && ptr[fl[k].addr] in size
    ensures var p, s := FreedPtr(ptr, size, fl[k].addr, b.addr), FreedSize(ptr, size, fl[k].addr, b.addr);
            var (c, n) := JoinRight(fl, k, b);
            var after := if n < |fl| then fl[n].addr else fl[0].addr;
            && fl[k].addr in p && fl[k].addr in s && b.addr in p && b.addr in s && c.addr == b.addr
            && p[b.addr] == after && s[b.addr] == c.units
            && (if fl[k].End() == b.addr then p[fl[k].addr] == after && s[fl[k].addr] == fl[k].units + c.units
                else p[fl[k].addr] == b.addr && s[fl[k].addr] == fl[k].units)
  {
    assert LinkedAt(fl, ptr, size, k);
    assert k + 1 < |fl| ==> LinkedAt(fl, ptr, size, k + 1);
  }

  lemma FreedAt(fl: seq<Blk>, k: nat, b: Blk, ptr: map<int, int>, size: map<int, int>, i: nat)
    requires Placed(fl, k, b, ptr, size) && i < |Insert(fl, k, b)|
    requires fl[k].addr in ptr && fl[k].addr in size && ptr[fl[k].addr] in ptr && ptr[fl[k].addr] in size
    ensures LinkedAt(Insert(fl, k, b), FreedPtr(ptr, size, fl[k].addr, b.addr),
      FreedSize(ptr, size, fl[k].addr, b.addr), i)
  {
    FreedHere(fl, k, b, ptr, size);
    var (c, n) := JoinRight(fl, k, b);
    var m := if fl[k].End() == c.addr then k else k + 1;
    if i < k { FreedElsewhere(fl, k, b, ptr, size, i); }
    if i > m { FreedElsewhere(fl, k, b, ptr, size, i - m - 1 + n); }
    hide Linked, Sorted, Placed, FreedPtr, FreedSize, Fits, JoinRight;
    var r := JoinLeft(fl, k, c, n);
    JoinedAt(fl, k, c, n, i);
    JoinedAt(fl, k, c, n, Next(|r|, i));
    hide JoinLeft, LinkedAt;
    JoinedNext(fl, k, c, n, i);
    var p, s := FreedPtr(ptr, size, fl[k].addr, b.addr), FreedSize(ptr, size, fl[k].addr, b.addr);
    assert r[i].addr in p && r[i].addr in s && s[r[i].addr] == r[i].units && p[r[i].addr] == r[Next(|r|, i)].addr;
    LinkedMeans(r, p, s, i);
  }

  lemma LinkedMeans(fl: seq<Blk>, ptr: map<int, int>, size: map<int, int>, i: nat)
    requires i < |fl| && fl[i].addr in ptr && fl[i].addr in size
    requires size[fl[i].addr] == fl[i].units && ptr[fl[i].addr] == fl[Next(|fl|, i)].addr
    ensures LinkedAt(fl, ptr, size, i)
  {
  }

  /** The successor of a block after the join. */
  lemma JoinedNext(fl: seq<Blk>, k: nat, c: Blk, n: nat, i: nat)
    requires k < n <= |fl| && i < |JoinLeft(fl, k, c, n)|
    ensures var r, m := JoinLeft(fl, k, c, n), if fl[k].End() == c.addr then k else k + 1;
            && (i < k ==> r[Next(|r|, i)].addr == fl[Next(|fl|, i)].addr)
            && (i == m ==> r[Next(|r|, i)].addr == if n < |fl| then fl[n].addr else fl[0].addr)
            && (i == k < m ==> r[Next(|r|, i)].addr == c.addr)
            && (i > m ==> r[Next(|r|, i)].addr == fl[Next(|fl|, i - m - 1 + n)].addr)
  {
    JoinedAt(fl, k, c, n, Next(|JoinLeft(fl, k, c, n)|, i));
  }

  lemma JoinedAt(fl: seq<Blk>, k: nat, c: Blk, n: nat, i: nat)
    requires k < n <= |fl| && i < |JoinLeft(fl, k, c, n)|
    ensures var r, m := JoinLeft(fl, k, c, n), if fl[k].End() == c.addr then k else k + 1;
            && |r| == m + 1 + |fl| - n
            && r[i] == if i < m then fl[i]
                       else if i > m then fl[i - m - 1 + n]
                       else if m == k then Blk(fl[k].addr, fl[k].units + c.units) else c
  {
  }

  lemma Freed(fl: seq<Blk>, k: nat, b: Blk, ptr: map<int, int>, size: map<int, int>)
    requires Placed(fl, k, b, ptr, size)
    ensures fl[k].addr in ptr && fl[k].addr in size && ptr[fl[k].addr] in ptr && ptr[fl[k].addr] in size
    ensures Linked(Insert(fl, k, b), FreedPtr(ptr, size, fl[k].addr, b.addr), FreedSize(ptr, size, fl[k].addr, b.addr))
  {
    assert LinkedAt(fl, ptr, size, k) && LinkedAt(fl, ptr, size, Next(|fl|, k));
    hide JoinRight, JoinLeft, Placed;
    forall i | 0 <= i < |Insert(fl, k, b)|
      ensures LinkedAt(Insert(fl, k, b), FreedPtr(ptr, size, fl[k].addr, b.addr),
        FreedSize(ptr, size, fl[k].addr, b.addr), i) {
      FreedAt(fl, k, b, ptr, size, i);
    }
  }

  function TakenPtr(ptr: map<int, int>, size: map<int, int>, prev: int, p: int, n: int): map<int, int>
    requires p in ptr && p in size
  {
    if size[p] == n then ptr[prev := ptr[p]] else ptr
  }

  function TakenSize(size: map<int, int>, p: int, n: int): map<int, int>
    requires p in size
  {
    if size[p] == n then size else size[p := size[p] - n][p + HDR * (size[p] - n) := n]
  }

  lemma TakenAway(fl: seq<Blk>, k: nat, n: int, x: nat)
    requires Sorted(fl) && 0 < k < |fl| && x < |fl| && fl[k].units >= n >= 1
    ensures x != k ==> fl[x].addr != fl[k].addr
    ensures fl[k].units != n ==> fl[x].addr != fl[k].addr + HDR * (fl[k].units - n)
    ensures x != k - 1 ==> fl[x].addr != fl[k - 1].addr
  {
    SortedAddrs(fl);
    assert x < k ==> fl[x].End() < fl[k].addr;
    assert k < x ==> fl[k].End() < fl[x].addr;
  }

  lemma TakenAt(fl: seq<Blk>, k: nat, n: int, ptr: map<int, int>, size: map<int, int>, i: nat)
    requires Sorted(fl) && Linked(fl, ptr, size) && 0 < k < |fl| && fl[k].units >= n >= 1
    requires fl[k].addr in ptr && fl[k].addr in size && i < |Take(fl, k, n).0|
    ensures LinkedAt(Take(fl, k, n).0, TakenPtr(ptr, size, fl[k - 1].addr, fl[k].addr, n),
      TakenSize(size, fl[k].addr, n), i)
  {
    var x := if fl[k].units == n && i >= k then i + 1 else i;
    assert LinkedAt(fl, ptr, size, k) && LinkedAt(fl, ptr, size, x);
    TakenAway(fl, k, n, x);
    if fl[k].units == n { TakenWhole(fl, k, ptr, size, i); } else { TakenTail(fl, k, n, ptr, size, i); }
  }

  lemma TakenWhole(fl: seq<Blk>, k: nat, ptr: map<int, int>, size: map<int, int>, i: nat)
    requires 0 < k < |fl| && i < |fl| - 1 && LinkedAt(fl, ptr, size, k)
    requires var x := if i >= k then i + 1 else i;
             LinkedAt(fl, ptr, size, x) && (x != k - 1 ==> fl[x].addr != fl[k - 1].addr)
    ensures LinkedAt(fl[..k] + fl[k + 1..], ptr[fl[k - 1].addr := ptr[fl[k].addr]], size, i)
  {
    var r := fl[..k] + fl[k + 1..];
    assert r[i] == if i >= k then fl[i + 1] else fl[i];
    var y := Next(|r|, i);
    assert r[y] == if y >= k then fl[y + 1] else fl[y];
  }

  lemma TakenTail(fl: seq<Blk>, k: nat, n: int, ptr: map<int, int>, size: map<int, int>, i: nat)
    requires 0 < k < |fl| && i < |fl| && LinkedAt(fl, ptr, size, k) && LinkedAt(fl, ptr, size, i)
    requires fl[k].units > n && fl[i].addr != fl[k].addr + HDR * (fl[k].units - n)
    requires i != k ==> fl[i].addr != fl[k].addr
    ensures LinkedAt(fl[k := Blk(fl[k].addr, fl[k].units - n)], ptr, TakenSize(size, fl[k].addr, n), i)
  {
  }

  lemma TakenLinked(fl: seq<Blk>, live: seq<Blk>, k: nat, n: int, ptr: map<int, int>, size: map<int, int>)
    requires Sorted(fl) && Disjoint(fl, live) && Linked(fl, ptr, size) && Sized(live, size)
    requires 0 < k < |fl| && fl[k].units >= n >= 1
    ensures fl[k].addr in ptr && fl[k].addr in size
    ensures Linked(Take(fl, k, n).0, TakenPtr(ptr, size, fl[k - 1].addr, fl[k].addr, n), TakenSize(size, fl[k].addr, n))
    ensures Sized(live + [Take(fl, k, n).1], TakenSize(size, fl[k].addr, n))
  {
    assert LinkedAt(fl, ptr, size, k);
    var r, p, s := Take(fl, k, n).0, TakenPtr(ptr, size, fl[k - 1].addr, fl[k].addr, n), TakenSize(size, fl[k].addr, n);
    forall i | 0 <= i < |r| ensures LinkedAt(r, p, s, i) {
      TakenAt(fl, k, n, ptr, size, i);
    }
    forall j | 0 <= j < |live|
      ensures live[j].addr != fl[k].addr && live[j].addr != fl[k].addr + HDR * (fl[k].units - n) {
      assert Apart(fl[k], live[j]);
    }
  }

  lemma TakenBelow(fl: seq<Blk>, live: seq<Blk>, k: nat, n: int, top: int)
    requires Below(fl, top) && Below(live, top) && k < |fl| && fl[k].units >= n >= 1
    ensures Below(Take(fl, k, n).0, top) && Below(live + [Take(fl, k, n).1], top)
  {
    assert fl[k].End() <= top;
  }

  lemma InsertBelow(fl: seq<Blk>, k: nat, b: Blk, top: int)
    requires Below(fl, top) && b.End() <= top && Fits(fl, k, b)
    ensures Below(Insert(fl, k, b), top)
  {
    assert fl[k].End() <= top;
  }

  /** No block from the start of the search up to, but not including, step d is large enough. */
  ghost predicate TooSmall(fl: seq<Blk>, a: nat, d: int, n: int)
    requires a < |fl|
  {
    forall i | 0 <= i < |fl| && Dist(|fl|, a, i) < d :: fl[i].units < n
  }

  /** Somewhere on the ring a block of n units starts. */
  ghost predicate HasRoom(fl: seq<Blk>, n: int) {
    exists i | 0 <= i < |fl| :: fl[i].units >= n
  }

  class Heap {
    const base: int               // address of the static header
    var ptr: map<int, int>        // header words in memory, by the header's address
    var size: map<int, int>
    var freep: int                // 0 before the first malloc
    ghost var fl: seq<Blk>        // the ring in address order
    ghost var live: seq<Blk>      // blocks handed out
    ghost var total: int          // units obtained from sbrk
    ghost var top: int            // end of the memory obtained

    ghost predicate Valid()
      reads this
    {
      if freep == 0 then base > 0 && base + HDR <= top && fl == [Blk(base, 0)] && live == [] && total == 0
      else Ready(base, fl, live, ptr, size, total, top) && OnRing(fl, freep)
    }

    constructor (base0: int, top0: int)
      requires 0 < base0 && base0 + HDR <= top0
      ensures Valid() && base == base0 && live == [] && total == 0 && top == top0
    {
      base := base0;
      ptr, size, freep := map[], map[], 0;
      fl, live, total, top := [Blk(base0, 0)], [], 0, top0;
    }

    /** The search loop of free: from freep round the ring to the block the address belongs after. */
    method Find(bp: int, ghost b: Blk) returns (p: int, ghost k: nat)
      requires Sorted(fl) && Linked(fl, ptr, size) && OnRing(fl, freep)
      requires b.addr == bp > fl[0].addr && forall i | 0 <= i < |fl| :: fl[i].addr != bp
      ensures Fits(fl, k, b) && p == fl[k].addr
    {
      SortedAddrs(fl);
      k := Slot(fl, b, 0);
      hide Sorted;
      p := freep;
      ghost var i: nat :| i < |fl| && fl[i].addr == p;
      assert LinkedAt(fl, ptr, size, i);
      while !(bp > p && bp < ptr[p])
        invariant i < |fl| && fl[i].addr == p && LinkedAt(fl, ptr, size, i)
        decreases if i <= k then k - i else |fl| - i + k
      {
        if p >= ptr[p] && (bp > p || bp < ptr[p]) {
          break;
        }
        i := Next(|fl|, i);
        p := ptr[p];
        assert LinkedAt(fl, ptr, size, i);
      }
      assert i == k;
    }

    /** The stores of free. */
    method Join(p: int, bp: int)
      requires p in ptr && p in size && bp in size && ptr[p] in ptr && ptr[p] in size && p != bp
      modifies this`ptr, this`size
      ensures ptr == FreedPtr(old(ptr), old(size), p, bp) && size == FreedSize(old(ptr), old(size), p, bp)
    {
      var next := ptr[p];
      if bp + HDR * size[bp] == next {
        size := size[bp := size[bp] + size[next]];
        ptr := ptr[bp := ptr[next]];
      } else {
        ptr := ptr[bp := next];
      }
      if p + HDR * size[p] == bp {
        size := size[p := size[p] + size[bp]];
        ptr := ptr[p := ptr[bp]];
      } else {
        ptr := ptr[p := bp];
      }
    }

    /** free: gives back the j-th live block, whose data starts at ap. */
    method Free(ap: int, ghost j: nat) returns (ghost k: nat)
      requires freep != 0 && Valid() && j < |live| && live[j].addr == ap - HDR
      modifies this`ptr, this`size, this`freep, this`fl, this`live
      ensures Valid() && Fits(old(fl), k, old(live[j])) && freep != 0
      ensures fl == Insert(old(fl), k, old(live[j])) && live == old(live[..j] + live[j + 1..])
      ensures k < |fl| && freep == fl[k].addr
    {
      hide Insert, Ready, FreedPtr, FreedSize, Sorted, Linked;
      var bp := ap - HDR;
      ghost var b := live[j];
      ReadyAt(base, fl, live, j, ptr, size, total, top);
      var p;
      p, k := Find(bp, b);
      GivenBack(base, fl, live, j, k, ptr, size, total, top);
      Join(p, bp);
      InsertKeeps(fl, k, b);
      fl := Insert(fl, k, b);
      live := live[..j] + live[j + 1..];
      freep := p;
    }

    /** morecore: sbrk answers s, which is -1 or memory no lower than any obtained before.
        The t-th free block is then large enough and is the one at freep or the one after it. */
    method Morecore(nunits: int, s: int) returns (p: int, ghost t: nat)
      requires freep != 0 && Valid() && (s == -1 || s >= top) && nunits >= 1
      modifies this
      ensures Valid() && freep != 0 && live == old(live)
      ensures s == -1 ==> p == 0 && fl == old(fl) && total == old(total) && top == old(top) && freep == old(freep)
      ensures s != -1 ==> total == old(total) + Grant(nunits) && top == s + HDR * Grant(nunits)
      ensures s != -1 ==>
        p == freep && t < |fl| && fl[t].units >= nunits && (fl[t].addr == freep || (t > 0 && fl[t - 1].addr == freep))
    {
      hide Insert, Ready;
      var nu := nunits;
      if nu < MINUNITS {
        nu := MINUNITS;
      }
      if s == -1 {
        t := 0;
        return 0, t;
      }
      ghost var b, fl0, live0 := Blk(s, nu), fl, live;
      Obtained(base, fl, live, b, ptr, size, total, top);
      size := size[s := nu];
      live, total := live + [b], total + nu;
      ghost var top0 := top;
      top := b.End();
      ghost var k := Free(s + HDR, |live| - 1);
      assert live == live0;
      InsertKeeps(fl0, k, b);
      t := AtTop(fl0, b, k, top0);
      return freep, t;
    }

    /** The stores of malloc once the block at p, reached from prevp, is large enough. */
    method Cut(prevp: int, p0: int, nunits: int) returns (p: int)
      requires p0 in ptr && p0 in size
      modifies this`ptr, this`size
      ensures ptr == TakenPtr(old(ptr), old(size), prevp, p0, nunits) && size == TakenSize(old(size), p0, nunits)
      ensures p == if old(size[p0]) == nunits then p0 else p0 + HDR * (old(size[p0]) - nunits)
    {
      p := p0;
      if size[p] == nunits {
        ptr := ptr[prevp := ptr[p]];
      } else {
        size := size[p := size[p] - nunits];
        p := p + HDR * size[p];
        size := size[p := nunits];
      }
    }

    /** malloc: a block of enough units apart from every other, at most one call of sbrk and only when nothing fits. */
    method Malloc(nbytes: int, s: int) returns (r: int, ghost asked: bool)
      requires Valid() && nbytes >= 0 && (s == -1 || s >= top)
      modifies this
      ensures Valid() && freep != 0
      ensures asked <==> !HasRoom(old(fl), Need(nbytes))
      ensures r == 0 <==> asked && s == -1
      ensures r == 0 ==> fl == old(fl) && live == old(live)
      ensures r != 0 ==> live == old(live) + [Blk(r - HDR, Need(nbytes))]
      ensures total == old(total) + if r != 0 && asked then Grant(Need(nbytes)) else 0
    {
      hide Insert, Ready, Take, TooSmall, HasRoom, OnRing, Next, Dist;
      var nunits := (nbytes + HDR - 1) / HDR + 1;
      asked := false;
      var prevp := freep;
      ghost var q: nat;
      if prevp == 0 {
        q := Start();
        prevp := freep;
      } else {
        q := RingIndex(fl, freep);
      }
      ghost var a: nat, t: nat := q, 0;
      RingAt(base, fl, live, ptr, size, total, top, q);
      var p := ptr[prevp];
      SearchStart(fl, a, nunits);
      while true
        invariant Valid() && freep != 0 && live == old(live)
        invariant q < |fl| && a < |fl| && prevp == fl[q].addr && p == fl[Next(|fl|, q)].addr && freep == fl[a].addr
        invariant !asked ==> fl == old(fl) && total == old(total) && top == old(top)
        invariant !asked ==> TooSmall(fl, a, Dist(|fl|, a, Next(|fl|, q)), nunits)
        invariant asked ==> !HasRoom(old(fl), nunits) && s != -1 && total == old(total) + Grant(nunits)
        invariant asked ==> t < |fl| && fl[t].units >= nunits && Dist(|fl|, a, Next(|fl|, q)) <= Dist(|fl|, a, t)
        decreases if asked then 0 else 1, |fl| - Dist(|fl|, a, Next(|fl|, q))
      {
        ghost var i := Next(|fl|, q);
        RingAt(base, fl, live, ptr, size, total, top, i);
        if size[p] >= nunits {
          Fitting(fl, i, nunits);
          r := Grab(prevp, p, nunits, q, i);
          return r, asked;
        }
        SearchStep(base, fl, live, ptr, size, total, top, a, i, t, nunits);
        if p == freep {
          assert !asked;
          asked := true;
          p, t := Morecore(nunits, s);
          if p == 0 {
            return 0, asked;
          }
          a := if fl[t].addr == freep then t else t - 1;
          i := a;
          SearchStart(fl, a, nunits);
        }
        RingAt(base, fl, live, ptr, size, total, top, i);
        q := i;
        prevp := p;
        p := ptr[p];
      }
    }

    /** The first call: the static header alone on the ring. */
    method Start() returns (ghost q: nat)
      requires Valid() && freep == 0
      modifies this`ptr, this`size, this`freep
      ensures Valid() && freep == base && freep != 0 && q < |fl| && fl[q].addr == freep
    {
      freep := base;
      ptr, size := ptr[base := base], size[base := 0];
      Fresh(base, fl, live, ptr, size, total, top);
      q := 0;
    }

    /** The last part of malloc, for a block that is large enough. */
    method Grab(prevp: int, p0: int, nunits: int, ghost q: nat, ghost i: nat) returns (r: int)
      requires Valid() && freep != 0 && q < |fl| && i == Next(|fl|, q) && prevp == fl[q].addr && p0 == fl[i].addr
      requires fl[i].units >= nunits >= 1
      modifies this`ptr, this`size, this`freep, this`fl, this`live
      ensures Valid() && freep == prevp && freep != 0 && r != 0
      ensures live == old(live) + [Blk(r - HDR, nunits)]
    {
      hide Ready, Take, TakenPtr, TakenSize, OnRing;
      RingAt(base, fl, live, ptr, size, total, top, q);
      RingAt(base, fl, live, ptr, size, total, top, i);
      Carved(base, fl, live, ptr, size, total, top, i, nunits);
      var p := Cut(prevp, p0, nunits);
      live := live + [Take(fl, i, nunits).1];
      fl := Take(fl, i, nunits).0;
      freep := prevp;
      r := p + HDR;
    }
  }

  lemma RingIndex(fl: seq<Blk>, p: int) returns (q: nat)
    requires OnRing(fl, p)
    ensures q < |fl| && fl[q].addr == p
  {
    q :| q < |fl| && fl[q].addr == p;
  }

  lemma Fitting(fl: seq<Blk>, i: nat, n: int)
    requires i < |fl| && fl[i].units >= n
    ensures HasRoom(fl, n)
  {
  }

  /** The units of a request: its bytes rounded up, and one for the header. */
  function Need(nbytes: int): (n: int)
    requires nbytes >= 0
    ensures n >= 1 && HDR * (n - 1) >= nbytes && HDR * (n - 2) < nbytes
  {
    (nbytes + HDR - 1) / HDR + 1
  }

  lemma Fresh(base: int, fl: seq<Blk>, live: seq<Blk>, ptr: map<int, int>, size: map<int, int>, total: int, top: int)
    requires 0 < base < top && fl == [Blk(base, 0)] && live == [] && total == 0
    requires base in ptr && ptr[base] == base && base in size && size[base] == 0
    ensures Ready(base, fl, live, ptr, size, total, top) && OnRing(fl, base)
  {
    UnitsOne(fl[0]);
    assert fl[0].addr == base;
  }

  lemma RingAt(base: int, fl: seq<Blk>, live: seq<Blk>, ptr: map<int, int>, size: map<int, int>, total: int, top: int,
               i: nat)
    requires Ready(base, fl, live, ptr, size, total, top) && i < |fl|
    ensures LinkedAt(fl, ptr, size, i) && fl[i].addr > 0 && |fl| >= 1 && fl[0].units == 0
  {
    SortedAddrs(fl);
    hide Sorted;
  }

  lemma SearchStart(fl: seq<Blk>, a: nat, n: int)
    requires a < |fl|
    ensures Dist(|fl|, a, Next(|fl|, a)) == 1 && TooSmall(fl, a, 1, n)
  {
  }

  /** One step of the search past a block that is too small. */
  lemma SearchStep(base: int, fl: seq<Blk>, live: seq<Blk>, ptr: map<int, int>, size: map<int, int>, total: int,
                   top: int, a: nat, i: nat, t: nat, n: int)
    requires Ready(base, fl, live, ptr, size, total, top) && a < |fl| && i < |fl| && fl[i].units < n
    ensures fl[i].addr == fl[a].addr <==> i == a
    ensures TooSmall(fl, a, Dist(|fl|, a, i), n) ==>
      if i == a then !HasRoom(fl, n) else TooSmall(fl, a, Dist(|fl|, a, i) + 1, n)
    ensures i != a ==> Dist(|fl|, a, Next(|fl|, i)) == Dist(|fl|, a, i) + 1
    ensures t < |fl| && fl[t].units >= n && Dist(|fl|, a, i) <= Dist(|fl|, a, t) ==>
      i != a && Dist(|fl|, a, i) < Dist(|fl|, a, t)
  {
    SortedAddrs(fl);
    assert i < a ==> fl[i].addr < fl[a].addr;
    assert a < i ==> fl[a].addr < fl[i].addr;
    hide Ready, Sorted;
    forall j | 0 <= j < |fl| && Dist(|fl|, a, j) == Dist(|fl|, a, i) ensures j == i {}
  }

  /** malloc keeps everything the heap relies on. */
  lemma Carved(base: int, fl: seq<Blk>, live: seq<Blk>, ptr: map<int, int>, size: map<int, int>, total: int, top: int,
               i: nat, n: int)
    requires Ready(base, fl, live, ptr, size, total, top) && i < |fl| && fl[i].units >= n >= 1
    ensures i > 0 && fl[i].addr in ptr && fl[i].addr in size && size[fl[i].addr] == fl[i].units
    ensures var (r, b) := Take(fl, i, n);
            && Ready(base, r, live + [b], TakenPtr(ptr, size, fl[i - 1].addr, fl[i].addr, n),
              TakenSize(size, fl[i].addr, n), total, top)
            && b == Blk(if fl[i].units == n then fl[i].addr else fl[i].addr + HDR * (fl[i].units - n), n)
            && OnRing(r, fl[i - 1].addr)
  {
    assert LinkedAt(fl, ptr, size, i);
    TakeSorted(fl, i, n);
    TakeDisjoint(fl, live, i, n);
    TakeUnits(fl, i, n);
    TakenLinked(fl, live, i, n, ptr, size);
    TakenBelow(fl, live, i, n, top);
    UnitsConcat(live, [Take(fl, i, n).1]);
    UnitsOne(Take(fl, i, n).1);
    TakenRing(fl, i, n);
    hide Sorted, Disjoint, Linked, Sized, Below, Units, Take, TakenPtr, TakenSize;
  }

  lemma TakenRing(fl: seq<Blk>, i: nat, n: int)
    requires 0 < i < |fl| && fl[i].units >= n
    ensures OnRing(Take(fl, i, n).0, fl[i - 1].addr)
    ensures Take(fl, i, n).1 == Blk(if fl[i].units == n then fl[i].addr else fl[i].addr + HDR * (fl[i].units - n), n)
  {
    assert Take(fl, i, n).0[i - 1] == fl[i - 1];
  }

  /** The units asked of sbrk for a request of n. */
  function Grant(n: int): int {
    if n < MINUNITS then MINUNITS else n
  }

  lemma Obtained(base: int, fl: seq<Blk>, live: seq<Blk>, b: Blk, ptr: map<int, int>, size: map<int, int>, total: int,
                 top: int)
    requires Ready(base, fl, live, ptr, size, total, top) && b.addr >= top && b.units > 0
    ensures Ready(base, fl, live + [b], ptr, size[b.addr := b.units], total + b.units, b.End())
    ensures forall i | 0 <= i < |fl| :: fl[i].End() <= top && fl[i].units >= 0
    ensures (live + [b])[..|live|] == live
  {
    UnitsConcat(live, [b]);
    UnitsOne(b);
    SortedAddrs(fl);
    ObtainedLinked(fl, live, b, ptr, size, top);
    hide Units, Linked;
  }

  lemma ObtainedLinked(fl: seq<Blk>, live: seq<Blk>, b: Blk, ptr: map<int, int>, size: map<int, int>, top: int)
    requires Sorted(fl) && Disjoint(fl, live) && Linked(fl, ptr, size) && Sized(live, size)
    requires Below(fl, top) && Below(live, top) && b.addr >= top > fl[0].addr && b.units > 0
    ensures Linked(fl, ptr, size[b.addr := b.units]) && Sized(live + [b], size[b.addr := b.units])
    ensures Disjoint(fl, live + [b])
  {
    SortedAddrs(fl);
    hide Sorted;
    var s := size[b.addr := b.units];
    forall i | 0 <= i < |fl| ensures LinkedAt(fl, ptr, s, i) {
      assert fl[i].End() <= top;
      assert LinkedAt(fl, ptr, size, i);
    }
    hide Linked, LinkedAt;
    forall i | 0 <= i < |fl| ensures Apart(fl[i], b) {
      assert fl[i].End() <= top;
    }
    forall j | 0 <= j < |live| ensures Apart(live[j], b) && live[j].addr != b.addr {
      assert live[j].End() <= top;
    }
    hide Below, Apart;
  }

  lemma AtTop(fl: seq<Blk>, b: Blk, k: nat, top: int) returns (t: nat)
    requires Fits(fl, k, b) && b.addr >= top && forall i | 0 <= i < |fl| :: fl[i].End() <= top
    requires forall i | 0 <= i < |fl| :: fl[i].units >= 0
    ensures t < |Insert(fl, k, b)| && Insert(fl, k, b)[t].units >= b.units && (t == k || t == k + 1)
  {
    assert k + 1 < |fl| ==> fl[k + 1].addr <= fl[k + 1].End();
    t := if fl[k].End() == b.addr then k else k + 1;
  }

  ghost predicate OnRing(fl: seq<Blk>, p: int) {
    exists i | 0 <= i < |fl| :: fl[i].addr == p
  }

  /** The heap between calls: a sorted ring linked in memory, live blocks apart from it and from each other, and
      every unit obtained either free or live. */
  ghost predicate Ready(base: int, fl: seq<Blk>, live: seq<Blk>, ptr: map<int, int>, size: map<int, int>, total: int,
                        top: int) {
    && 0 < base < top && Sorted(fl) && Disjoint(fl, live) && fl[0] == Blk(base, 0)
    && Linked(fl, ptr, size) && Sized(live, size) && Below(fl, top) && Below(live, top)
    && Units(fl) + Units(live) == total
  }

  lemma ReadyAt(base: int, fl: seq<Blk>, live: seq<Blk>, j: nat, ptr: map<int, int>, size: map<int, int>, total: int,
                top: int)
    requires Ready(base, fl, live, ptr, size, total, top) && j < |live|
    ensures Sorted(fl) && Linked(fl, ptr, size) && |fl| >= 1 && fl[0].addr == base > 0
    ensures live[j].addr > base && forall i | 0 <= i < |fl| :: fl[i].addr >= base && fl[i].addr != live[j].addr
  {
    SortedAddrs(fl);
    LiveAddrs(fl, live);
  }

  lemma InsertKeeps(fl: seq<Blk>, k: nat, b: Blk)
    requires Fits(fl, k, b)
    ensures k < |Insert(fl, k, b)| && Insert(fl, k, b)[k].addr == fl[k].addr
  {
  }

  /** free keeps everything the heap relies on. */
  lemma GivenBack(base: int, fl: seq<Blk>, live: seq<Blk>, j: nat, k: nat, ptr: map<int, int>, size: map<int, int>,
                  total: int, top: int)
    requires Ready(base, fl, live, ptr, size, total, top) && j < |live| && Fits(fl, k, live[j])
    ensures var p, b, r, rest := fl[k].addr, live[j], Insert(fl, k, live[j]), live[..j] + live[j + 1..];
            && p in ptr && p in size && b.addr in size && ptr[p] in ptr && ptr[p] in size && p != b.addr
            && Ready(base, r, rest, FreedPtr(ptr, size, p, b.addr), FreedSize(ptr, size, p, b.addr), total, top)
  {
    var b, rest := live[j], live[..j] + live[j + 1..];
    ReadyPlaced(base, fl, live, j, k, ptr, size, total, top);
    hide Insert, Placed, Sorted, Units, Linked, FreedPtr, FreedSize, Disjoint, Sized, Below;
    Freed(fl, k, b, ptr, size);
    Inserted(fl, live, j, k);
    InsertBelow(fl, k, b, top);
    UnitsWithout(live, j);
    RestSized(fl, live, j, k, ptr, size, top);
  }

  lemma ReadyPlaced(base: int, fl: seq<Blk>, live: seq<Blk>, j: nat, k: nat, ptr: map<int, int>, size: map<int, int>,
                    total: int, top: int)
    requires Ready(base, fl, live, ptr, size, total, top) && j < |live| && Fits(fl, k, live[j])
    ensures Placed(fl, k, live[j], ptr, size) && live[j].End() <= top
  {
    SortedAddrs(fl);
    LiveAddrs(fl, live);
    hide Sorted, Linked, Units;
  }

  lemma UnitsWithout(live: seq<Blk>, j: nat)
    requires j < |live|
    ensures Units(live[..j] + live[j + 1..]) + live[j].units == Units(live)
  {
    UnitsParts(live, j);
    UnitsConcat(live[..j], live[j + 1..]);
  }

  lemma RestSized(fl: seq<Blk>, live: seq<Blk>, j: nat, k: nat, ptr: map<int, int>, size: map<int, int>, top: int)
    requires Sorted(fl) && Disjoint(fl, live) && Sized(live, size) && Below(live, top) && j < |live| && k < |fl|
    requires var p, b := fl[k].addr, live[j];
             p in ptr && p in size && b.addr in size && ptr[p] in ptr && ptr[p] in size && p != b.addr
    ensures Sized(live[..j] + live[j + 1..], FreedSize(ptr, size, fl[k].addr, live[j].addr))
    ensures Below(live[..j] + live[j + 1..], top)
  {
    LiveAddrs(fl, live);
    hide Sorted, Disjoint;
    var s, rest := FreedSize(ptr, size, fl[k].addr, live[j].addr), live[..j] + live[j + 1..];
    forall i | 0 <= i < |rest| ensures rest[i].addr in s && s[rest[i].addr] == rest[i].units && rest[i].End() <= top {
      assert rest[i] == live[if i < j then i else i + 1];
    }
  }
}
