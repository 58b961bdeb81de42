/** bio.c: the buffer cache. Each method is one stretch of code under bcache.lock, or one done while holding a
    buffer. */
module Bio {
  import opened Blocks
  import opened Ring

  const NBUF: nat := 30          // MAXOPBLOCKS * 3

  type Disk = map<(int, int), Block>   // contents by device and block number

  /** The contents of a buffer, apart from its place in the ring. */
  datatype Slot = Slot(dev: int, blockno: int, valid: bool, dirty: bool, refcnt: int, locked: bool, data: Block,
                       ghost unsaved: bool, ghost when: int) {
    predicate Holds(d: int, n: int) { dev == d && blockno == n }

    /** What bget may recycle. */
    predicate Idle() { refcnt == 0 && !dirty }
  }

  ghost function Snap(b: Buf): Slot
    reads b`dev, b`blockno, b`valid, b`dirty, b`refcnt, b`locked, b`data, b`unsaved, b`when
  {
    Slot(b.dev, b.blockno, b.valid, b.dirty, b.refcnt, b.locked, b.data, b.unsaved, b.when)
  }

  ghost function Snaps(r: seq<Buf>): (s: seq<Slot>)
    reads r`dev, r`blockno, r`valid, r`dirty, r`refcnt, r`locked, r`data, r`unsaved, r`when
    ensures |s| == |r| && forall i | 0 <= i < |r| :: s[i] == Snap(r[i])
  {
    if r == [] then [] else Snaps(r[..|r| - 1]) + [Snap(r[|r| - 1])]
  }

  /** One buffer against the disk and against what a disk without a cache would hold. */
  ghost predicate Sane(b: Slot, disk: Disk, view: Disk) {
    var key := (b.dev, b.blockno);
    && b.refcnt >= (if b.locked then 1 else 0)
    && (b.unsaved ==> b.locked && b.valid) && (b.dirty ==> b.valid)
    && (b.dev == 0 ==> b.refcnt == 0 && !b.valid)
    && (b.dev != 0 ==> key in disk && key in view)
    && (b.valid ==> b.data == view[key] && (b.dirty || b.unsaved || disk[key] == view[key]))
  }

  /** No block of a real device is in two buffers. */
  ghost predicate Unique(s: seq<Slot>) {
    forall i, j | 1 <= i < j < |s| && s[i].dev != 0 :: !s[j].Holds(s[i].dev, s[i].blockno)
  }

  ghost predicate Cached(s: seq<Slot>, key: (int, int)) {
    exists i | 1 <= i < |s| :: s[i].Holds(key.0, key.1) && s[i].valid
  }

  /** A block whose disk copy is out of date is in the cache. */
  ghost predicate Covered(s: seq<Slot>, disk: Disk, view: Disk) {
    disk.Keys == view.Keys && forall k | k in disk && disk[k] != view[k] :: Cached(s, k)
  }

  /** Most recently released first. */
  ghost predicate Ordered(s: seq<Slot>, clock: int) {
    && (forall i, j | 1 <= i < j < |s| :: s[i].when > s[j].when)
    && (forall i | 1 <= i < |s| :: s[i].when < clock)
  }

  ghost predicate Coherent(s: seq<Slot>, disk: Disk, view: Disk, clock: int) {
    && (forall i | 1 <= i < |s| :: Sane(s[i], disk, view))
    && Unique(s) && Covered(s, disk, view) && Ordered(s, clock)
  }

  ghost predicate Hits(s: seq<Slot>, dev: int, blockno: int) {
    exists i | 1 <= i < |s| :: s[i].Holds(dev, blockno)
  }

  ghost predicate Recyclable(s: seq<Slot>) {
    exists i | 1 <= i < |s| :: s[i].Idle()
  }

  /** bget: the buffer that holds the block, else the least recently released idle one emptied for it, else a panic. */
  ghost predicate Got(s: seq<Slot>, t: seq<Slot>, dev: int, blockno: int, at: nat, panic: bool) {
    if Hits(s, dev, blockno) then
      !panic && 1 <= at < |s| && s[at].Holds(dev, blockno) && t == s[at := s[at].(refcnt := s[at].refcnt + 1)]
    else if Recyclable(s) then
      && !panic && 1 <= at < |s| && s[at].Idle() && (forall j | 1 <= j < |s| && s[j].Idle() :: s[at].when <= s[j].when)
      && t == s[at := s[at].(dev := dev, blockno := blockno, valid := false, refcnt := 1)]
    else panic && t == s
  }

  lemma GotKeeps(s: seq<Slot>, t: seq<Slot>, dev: int, blockno: int, at: nat, panic: bool, disk: Disk, view: Disk,
                 clock: int)
    requires Coherent(s, disk, view, clock) && Got(s, t, dev, blockno, at, panic) && dev != 0 && (dev, blockno) in disk
    ensures Coherent(t, disk, view, clock)
  {
    if !panic {
      GotCovered(s, t, dev, blockno, at, disk, view);
    }
  }

  /** A recycled buffer was idle, so the disk already has its block. */
  lemma GotCovered(s: seq<Slot>, t: seq<Slot>, dev: int, blockno: int, at: nat, disk: Disk, view: Disk)
    requires (forall i | 1 <= i < |s| :: Sane(s[i], disk, view)) && Unique(s) && Covered(s, disk, view)
    requires Got(s, t, dev, blockno, at, false)
    ensures Covered(t, disk, view)
  {
    forall k | k in disk && disk[k] != view[k] ensures Cached(t, k) {
      var i :| 1 <= i < |s| && s[i].Holds(k.0, k.1) && s[i].valid;
      assert Sane(s[i], disk, view);
      assert k == (s[i].dev, s[i].blockno);
      assert t[i].Holds(k.0, k.1) && t[i].valid;
    }
  }

  /** The key of a slot changes nothing outside that key. */
  ghost predicate SameBut(a: Disk, b: Disk, key: (int, int)) {
    a.Keys == b.Keys && key in a && forall k | k in a && k != key :: a[k] == b[k]
  }

  /** What the holder of one buffer does stays between that buffer, its block and its view. */
  lemma HeldKeeps(s: seq<Slot>, at: nat, x: Slot, disk: Disk, view: Disk, disk2: Disk, view2: Disk, clock: int)
    requires Coherent(s, disk, view, clock) && 1 <= at < |s| && s[at].dev != 0
    requires x.dev == s[at].dev && x.blockno == s[at].blockno && x.when == s[at].when
    requires SameBut(disk, disk2, (x.dev, x.blockno)) && SameBut(view, view2, (x.dev, x.blockno))
    requires Sane(x, disk2, view2) && (s[at].valid ==> x.valid)
    requires x.valid || (disk2 == disk && view2 == view)
    ensures Coherent(s[at := x], disk2, view2, clock)
  {
    var key, t := (x.dev, x.blockno), s[at := x];
    forall i | 1 <= i < |t| ensures Sane(t[i], disk2, view2) {
      if i != at {
        assert Sane(s[i], disk, view);
        assert s[i].dev != 0 ==> (s[i].dev, s[i].blockno) != key by {
          assert i < at && s[i].dev != 0 ==> !s[at].Holds(s[i].dev, s[i].blockno);
          assert at < i ==> !s[i].Holds(s[at].dev, s[at].blockno);
        }
      }
    }
    forall k | k in disk2 && disk2[k] != view2[k] ensures Cached(t, k) {
      if k == key && x.valid {
        assert t[at].Holds(k.0, k.1) && t[at].valid;
      } else {
        assert Cached(s, k);
        var i :| 1 <= i < |s| && s[i].Holds(k.0, k.1) && s[i].valid;
        assert t[i].Holds(k.0, k.1) && t[i].valid;
      }
    }
  }

  /** brelse: one reference less, and to the front of the ring when it was the last. */
  ghost function Released(s: seq<Slot>, at: nat, clock: int): seq<Slot>
    requires 1 <= at < |s|
  {
    if s[at].refcnt == 1 then [s[0], s[at].(refcnt := 0, when := clock)] + s[1..at] + s[at + 1..]
    else s[at := s[at].(refcnt := s[at].refcnt - 1)]
  }

  /** Where the slots go when the one at `at` moves to the front. */
  function Moved(at: nat, i: nat): nat {
    if i == 0 || i > at then i else if i == 1 then at else i - 1
  }

  lemma ReleasedIs(s: seq<Slot>, at: nat, clock: int)
    requires 1 <= at < |s|
    ensures Released(s, at, clock)
         == if s[at].refcnt == 1 then [s[0], s[at].(refcnt := 0, when := clock)] + s[1..at] + s[at + 1..]
            else s[at := s[at].(refcnt := s[at].refcnt - 1)]
  {
  }

  lemma Front<T>(s: seq<T>, at: nat, x: T, i: nat)
    requires 1 <= at < |s| && i < |s|
    ensures var t := [s[0], x] + s[1..at] + s[at + 1..];
            |t| == |s| && t[i] == if i == 1 then x else s[Moved(at, i)]
  {
  }

  lemma ReleasedAt(s: seq<Slot>, at: nat, clock: int, i: nat)
    requires 1 <= at < |s| && s[at].refcnt == 1 && i < |s|
    ensures var t := Released(s, at, clock);
            |t| == |s| && t[i] == if i == 1 then s[at].(refcnt := 0, when := clock) else s[Moved(at, i)]
  {
  }

  lemma ReleasedKeeps(s: seq<Slot>, at: nat, disk: Disk, view: Disk, clock: int)
    requires Coherent(s, disk, view, clock) && 1 <= at < |s|
    requires s[at].refcnt > (if s[at].locked then 1 else 0)
    ensures Coherent(Released(s, at, clock), disk, view, clock + 1)
  {
    var t := Released(s, at, clock);
    if s[at].refcnt == 1 {
      forall i | 0 <= i < |s|
        ensures t[i] == if i == 1 then s[at].(refcnt := 0, when := clock) else s[Moved(at, i)] {
        ReleasedAt(s, at, clock, i);
      }
      hide Released;
      MovedKeeps(s, t, at, disk, view, clock);
    } else {
      assert Sane(s[at], disk, view);
      if s[at].dev != 0 { HeldKeeps(s, at, t[at], disk, view, disk, view, clock); }
    }
  }

  lemma MovedKeeps(s: seq<Slot>, t: seq<Slot>, at: nat, disk: Disk, view: Disk, clock: int)
    requires Coherent(s, disk, view, clock) && 1 <= at < |s| == |t| && s[at].refcnt == 1 && !s[at].locked
    requires forall i | 0 <= i < |s| :: t[i] == if i == 1 then s[at].(refcnt := 0, when := clock) else s[Moved(at, i)]
    ensures Coherent(t, disk, view, clock + 1)
  {
    forall i | 1 <= i < |t| ensures Sane(t[i], disk, view) {
      assert Sane(s[Moved(at, i)], disk, view);
    }
    MovedUnique(s, t, at);
    MovedCovered(s, t, at, disk, view);
    MovedOrdered(s, t, at, clock);
    hide Unique, Covered, Sane, Ordered;
  }

  lemma MovedCovered(s: seq<Slot>, t: seq<Slot>, at: nat, disk: Disk, view: Disk)
    requires Covered(s, disk, view) && 1 <= at < |s| == |t|
    requires forall i | 1 <= i < |s| :: t[i].dev == s[Moved(at, i)].dev && t[i].blockno == s[Moved(at, i)].blockno
                                        && t[i].valid == s[Moved(at, i)].valid
    ensures Covered(t, disk, view)
  {
    forall k | k in disk && disk[k] != view[k] ensures Cached(t, k) {
      var i :| 1 <= i < |s| && s[i].Holds(k.0, k.1) && s[i].valid;
      var j := if i == at then 1 else if i < at then i + 1 else i;
      assert Moved(at, j) == i && t[j].Holds(k.0, k.1) && t[j].valid;
    }
  }

  lemma MovedOrdered(s: seq<Slot>, t: seq<Slot>, at: nat, clock: int)
    requires Ordered(s, clock) && 1 <= at < |s| == |t|
    requires forall i | 1 <= i < |s| :: t[i].when == if i == 1 then clock else s[Moved(at, i)].when
    ensures Ordered(t, clock + 1)
  {
  }

  lemma MovedUnique(s: seq<Slot>, t: seq<Slot>, at: nat)
    requires Unique(s) && 1 <= at < |s| == |t|
    requires forall i | 1 <= i < |s| :: t[i].dev == s[Moved(at, i)].dev && t[i].blockno == s[Moved(at, i)].blockno
    ensures Unique(t)
  {
    forall i, j | 1 <= i < j < |t| && t[i].dev != 0 ensures !t[j].Holds(t[i].dev, t[i].blockno) {
      var a, b := Moved(at, i), Moved(at, j);
      assert a != b;
      assert a < b ==> !s[b].Holds(s[a].dev, s[a].blockno);
      assert b < a && s[b].dev != 0 ==> !s[a].Holds(s[b].dev, s[b].blockno);
    }
  }

  class Cache {
    const head: Buf
    var disk: Disk
    ghost var ring: seq<Buf>
    ghost var view: Disk          // what an uncached disk would hold
    ghost var clock: int

    ghost predicate Valid()
      reads this, ring
    {
      && |ring| == NBUF + 1 && ring[0] == head && Linked(ring)
      && Coherent(Snaps(ring), disk, view, clock)
    }

    /** binit: every buffer in front of the one before it. */
    constructor (d: Disk)
      ensures Valid() && disk == d && view == d && fresh(ring) && |ring| == NBUF + 1 && Blank(Snaps(ring), NBUF)
    {
      hide Linked, Blank, Coherent, Snaps;
      var h := new Buf(0);
      Alone(h);
      ghost var r := [h];
      var i := 0;
      while i < NBUF
        invariant 0 <= i <= NBUF && |r| == i + 1 && r[0] == h && Linked(r)
        invariant forall j | 0 <= j < |r| :: fresh(r[j])
        invariant Blank(Snaps(r), i)
      {
        r := NewFront(h, r, i);
        i := i + 1;
      }
      BlankCoherent(Snaps(r), d, NBUF);
      head, disk, view, clock, ring := h, d, d, NBUF, r;
    }

    /** The slots after a change to the buffer at one place. */
    twostate lemma Changed(at: nat)
      requires ring == old(ring) && 1 <= at < |ring| && old(Linked(ring))
      requires forall x | x in ring && x != ring[at] :: old(Snap(x)) == Snap(x)
      ensures Snaps(ring) == old(Snaps(ring))[at := Snap(ring[at])]
    {
      forall j | 0 <= j < |ring| && j != at ensures Snaps(ring)[j] == old(Snaps(ring))[j] {
        assert ring[j] != ring[at] && ring[j] in ring;
        assert old(Snaps(ring))[j] == old(Snap(ring[j]));
      }
    }

    /** bget up to the sleeplock; null is the panic. */
    method Bget(dev: int, blockno: int) returns (b: Buf?, ghost at: nat)
      requires Valid() && dev != 0 && (dev, blockno) in disk
      modifies ring`dev, ring`blockno, ring`valid, ring`dirty, ring`refcnt
      ensures Valid() && Got(old(Snaps(ring)), Snaps(ring), dev, blockno, at, b == null)
      ensures b != null ==> at < |ring| && ring[at] == b
    {
      hide Coherent, Got, Linked, Snaps, Hits, Recyclable;
      b, at := Hit(dev, blockno);
      if b != null {
        TakeHit(b, at, dev, blockno);
        return;
      }
      b, at := Victim();
      if b != null {
        TakeVictim(b, at, dev, blockno);
      } else {
        GotNone(Snaps(ring), dev, blockno, at);
      }
    }

    method TakeHit(b: Buf, ghost at: nat, dev: int, blockno: int)
      requires Valid() && dev != 0 && (dev, blockno) in disk
      requires 1 <= at < |ring| && ring[at] == b && Snaps(ring)[at].Holds(dev, blockno)
      modifies b`refcnt
      ensures Valid() && Got(old(Snaps(ring)), Snaps(ring), dev, blockno, at, false)
    {
      hide Coherent, Got, Linked, Snaps;
      ghost var s := Snaps(ring);
      GotHit(s, dev, blockno, at);
      b.Reference();
      Changed(at);
      GotKeeps(s, Snaps(ring), dev, blockno, at, false, disk, view, clock);
    }

    method TakeVictim(b: Buf, ghost at: nat, dev: int, blockno: int)
      requires Valid() && dev != 0 && (dev, blockno) in disk
      requires 1 <= at < |ring| && ring[at] == b && Snaps(ring)[at].Idle() && !Hits(Snaps(ring), dev, blockno)
      requires forall j | 1 <= j < |ring| && Snaps(ring)[j].Idle() :: Snaps(ring)[at].when <= Snaps(ring)[j].when
      modifies b`dev, b`blockno, b`valid, b`dirty, b`refcnt
      ensures Valid() && Got(old(Snaps(ring)), Snaps(ring), dev, blockno, at, false)
    {
      hide Coherent, Got, Linked, Snaps, Hits;
      ghost var s := Snaps(ring);
      GotVictim(s, dev, blockno, at);
      b.Recycle(dev, blockno);
      Changed(at);
      GotKeeps(s, Snaps(ring), dev, blockno, at, false, disk, view, clock);
    }

    /** The process that may use a buffer: it was counted, and it got the sleeplock. */
    ghost predicate Held(b: Buf, at: nat)
      reads this, ring
    {
      Valid() && 1 <= at < |ring| && ring[at] == b && b.locked
    }

    /** acquiresleep at the end of bget, once the lock is free. */
    method Acquire(b: Buf, ghost at: nat)
      requires Valid() && 1 <= at < |ring| && ring[at] == b && b.refcnt > 0 && !b.locked
      modifies b`locked
      ensures Held(b, at) && Snaps(ring) == old(Snaps(ring))[at := old(Snap(b)).(locked := true)]
    {
      hide Coherent, Linked, Snaps;
      ghost var s := Snaps(ring);
      CoherentAt(s, at, disk, view, clock);
      b.locked := true;
      Changed(at);
      HeldKeeps(s, at, Snap(b), disk, view, disk, view, clock);
    }

    /** iderw: writes a dirty buffer, reads one that is not valid. */
    method Iderw(b: Buf, ghost at: nat)
      requires Held(b, at) && (b.dirty || !b.valid)
      modifies this`disk, b`data, b`valid, b`dirty
      ensures Held(b, at) && (b.dev, b.blockno) in old(disk) && (b.dev, b.blockno) in view
      ensures b.data == view[(b.dev, b.blockno)]
      ensures disk == (if old(b.dirty) then old(disk)[(b.dev, b.blockno) := b.data] else old(disk))
      ensures Snaps(ring) == old(Snaps(ring))[at := old(Snap(b)).(data := b.data, valid := true, dirty := false)]
    {
      hide Coherent, Linked, Snaps, Covered, Unique, Ordered;
      ghost var s := Snaps(ring);
      CoherentAt(s, at, disk, view, clock);
      Transferred(s, at, disk, view, clock);
      if b.dirty {
        disk := disk[(b.dev, b.blockno) := b.data];
      } else {
        b.data := disk[(b.dev, b.blockno)];
      }
      b.Arrive();
      Changed(at);
    }

    /** The end of bread: the holder sees what a disk without a cache would give. */
    method Bread(b: Buf, ghost at: nat)
      requires Held(b, at)
      modifies this`disk, b`data, b`valid, b`dirty
      ensures Held(b, at) && b.valid && disk == old(disk) && (b.dev, b.blockno) in view
      ensures b.data == view[(b.dev, b.blockno)]
      ensures Snaps(ring) == old(Snaps(ring))[at := old(Snap(b)).(data := b.data, valid := true)]
    {
      hide Coherent, Linked, Snaps;
      ghost var s := Snaps(ring);
      CoherentAt(s, at, disk, view, clock);
      if !b.valid {
        Iderw(b, at);
      }
    }

    /** The holder changes the data. */
    method Modify(b: Buf, ghost at: nat, data: Block)
      requires Held(b, at) && b.valid
      modifies this`view, b`data, b`unsaved
      ensures Held(b, at) && view == old(view)[(b.dev, b.blockno) := data]
      ensures Snaps(ring) == old(Snaps(ring))[at := old(Snap(b)).(data := data, unsaved := true)]
    {
      hide Coherent, Linked, Snaps;
      ghost var s, v := Snaps(ring), view;
      CoherentAt(s, at, disk, view, clock);
      b.data := data;
      view := view[(b.dev, b.blockno) := data];
      b.unsaved := true;
      Changed(at);
      HeldKeeps(s, at, Snap(b), disk, v, disk, view, clock);
    }

    /** The end of log_write: the buffer stays until the commit. */
    method Pin(b: Buf, ghost at: nat)
      requires Held(b, at) && b.valid
      modifies b`dirty, b`unsaved
      ensures Held(b, at) && Snaps(ring) == old(Snaps(ring))[at := old(Snap(b)).(dirty := true, unsaved := false)]
    {
      hide Coherent, Linked, Snaps;
      ghost var s := Snaps(ring);
      CoherentAt(s, at, disk, view, clock);
      b.dirty := true;
      b.unsaved := false;
      Changed(at);
      HeldKeeps(s, at, Snap(b), disk, view, disk, view, clock);
    }

    /** bwrite: the block reaches the disk. */
    method Bwrite(b: Buf, ghost at: nat)
      requires Held(b, at) && b.valid
      modifies this`disk, b`data, b`valid, b`dirty, b`unsaved
      ensures Held(b, at) && (b.dev, b.blockno) in old(disk) && disk == old(disk)[(b.dev, b.blockno) := old(b.data)]
      ensures Snaps(ring) == old(Snaps(ring))[at := old(Snap(b)).(dirty := false, unsaved := false)]
    {
      hide Coherent, Linked, Snaps;
      ghost var s := Snaps(ring);
      CoherentAt(s, at, disk, view, clock);
      Pin(b, at);
      Iderw(b, at);
    }

    /** releasesleep at the start of brelse: only once the changes are marked or written. */
    method Releasesleep(b: Buf, ghost at: nat)
      requires Held(b, at) && !b.unsaved
      modifies b`locked
      ensures Valid() && Snaps(ring) == old(Snaps(ring))[at := old(Snap(b)).(locked := false)]
    {
      hide Coherent, Linked, Snaps;
      ghost var s := Snaps(ring);
      CoherentAt(s, at, disk, view, clock);
      b.locked := false;
      Changed(at);
      HeldKeeps(s, at, Snap(b), disk, view, disk, view, clock);
    }

    /** The rest of brelse. */
    method Brelse(b: Buf, ghost at: nat)
      requires Valid() && 1 <= at < |ring| && ring[at] == b && b.refcnt > (if b.locked then 1 else 0)
      modifies this`ring, this`clock, b`refcnt, b`when, ring`next, ring`prev
      ensures Valid() && disk == old(disk) && view == old(view)
      ensures Snaps(ring) == Released(old(Snaps(ring)), at, old(clock))
      ensures ring == if b.refcnt == 0 then old([head, b] + ring[1..at] + ring[at + 1..]) else old(ring)
    {
      hide Linked, Snaps, Released, Coherent;
      ReleasedKeeps(Snaps(ring), at, disk, view, clock);
      ghost var r := Release(b, at);
      ghost var t := Snaps(r);
      assert Coherent(t, disk, view, clock + 1);
      ring, clock := r, clock + 1;
      assert Linked(r) && Snaps(r) == t;
    }

    method Release(b: Buf, ghost at: nat) returns (ghost r: seq<Buf>)
      requires Linked(ring) && 1 <= at < |ring| && ring[0] == head && ring[at] == b
      modifies b`refcnt, b`when, ring`next, ring`prev
      ensures r == if b.refcnt == 0 then [head, b] + ring[1..at] + ring[at + 1..] else ring
      ensures |r| == |ring| && r[0] == head && Linked(r) && Snaps(r) == Released(old(Snaps(ring)), at, clock)
    {
      hide Linked, Snaps, Released;
      if b.refcnt == 1 {
        r := Retire(b, at);
      } else {
        r := Unreference(b, at);
      }
    }

    method Unreference(b: Buf, ghost at: nat) returns (ghost r: seq<Buf>)
      requires Linked(ring) && 1 <= at < |ring| && ring[at] == b && b.refcnt != 1
      modifies b`refcnt
      ensures r == ring && Linked(r) && b.refcnt == old(b.refcnt) - 1
      ensures Snaps(r) == Released(old(Snaps(ring)), at, clock)
    {
      ReleasedIs(Snaps(ring), at, clock);
      hide Linked, Snaps, Released;
      b.refcnt := b.refcnt - 1;
      Changed(at);
      r := ring;
    }

    /** The last reference goes: the buffer becomes the most recently released. */
    method Retire(b: Buf, ghost at: nat) returns (ghost r: seq<Buf>)
      requires Linked(ring) && 1 <= at < |ring| && ring[0] == head && ring[at] == b && b.refcnt == 1
      modifies b`refcnt, b`when, ring`next, ring`prev
      ensures r == [head, b] + ring[1..at] + ring[at + 1..] && |r| == |ring| && r[0] == head
      ensures Linked(r) && b.refcnt == 0 && Snaps(r) == Released(old(Snaps(ring)), at, clock)
    {
      hide Linked, Snaps, Released;
      ghost var s := Snaps(ring);
      r := [head, b] + ring[1..at] + ring[at + 1..];
      b.Retire(clock);
      ToFront(b, at);
      Reordered(at);
      ReleasedIs(s, at, clock);
    }

    /** The pointer changes of brelse. */
    method ToFront(b: Buf, ghost at: nat)
      requires Linked(ring) && 1 <= at < |ring| && ring[0] == head && ring[at] == b
      modifies ring`next, ring`prev
      ensures Linked([head, b] + ring[1..at] + ring[at + 1..])
    {
      ghost var r := ring[..at] + ring[at + 1..];
      assert r[1..] == ring[1..at] + ring[at + 1..];
      assert b !in r;
      assert [head, b] + r[1..] == [head, b] + ring[1..at] + ring[at + 1..];
      hide Linked;
      Unlink(b, ring, at);
      PushFront(head, b, r);
    }

    twostate lemma Reordered(at: nat)
      requires ring == old(ring) && 1 <= at < |ring| && old(Linked(ring))
      requires forall x | x in ring && x != ring[at] :: old(Snap(x)) == Snap(x)
      ensures Snaps([ring[0], ring[at]] + ring[1..at] + ring[at + 1..])
           == [old(Snaps(ring))[0], Snap(ring[at])] + old(Snaps(ring))[1..at] + old(Snaps(ring))[at + 1..]
    {
      var q, s := [ring[0], ring[at]] + ring[1..at] + ring[at + 1..], old(Snaps(ring));
      hide Snaps;
      forall j | 0 <= j < |q| ensures Snaps(q)[j] == ([s[0], Snap(ring[at])] + s[1..at] + s[at + 1..])[j] {
        Front(ring, at, ring[at], j);
        Front(s, at, Snap(ring[at]), j);
        if j != 1 {
          var x := ring[Moved(at, j)];
          assert x in ring && x != ring[at];
          assert s[Moved(at, j)] == old(Snap(x));
        }
      }
    }

    /** The first loop of bget. */
    method Hit(dev: int, blockno: int) returns (b: Buf?, ghost at: nat)
      requires Valid()
      ensures b != null ==> 1 <= at < |ring| && ring[at] == b && Snaps(ring)[at].Holds(dev, blockno)
      ensures b == null ==> !Hits(Snaps(ring), dev, blockno)
    {
      hide Coherent;
      var cur := head.next;
      at := 1;
      while cur != head
        invariant 1 <= at <= |ring| && cur == (if at < |ring| then ring[at] else head)
        invariant forall j | 1 <= j < at :: !Snaps(ring)[j].Holds(dev, blockno)
        decreases |ring| - at
      {
        if cur.dev == dev && cur.blockno == blockno {
          return cur, at;
        }
        cur := cur.next;
        at := at + 1;
      }
      return null, at;
    }

    /** The second loop of bget, from the least recently released. */
    method Victim() returns (b: Buf?, ghost at: nat)
      requires Valid()
      ensures b != null ==> 1 <= at < |ring| && ring[at] == b && Snaps(ring)[at].Idle()
      ensures b != null ==>
        forall j | 1 <= j < |ring| && Snaps(ring)[j].Idle() :: Snaps(ring)[at].when <= Snaps(ring)[j].when
      ensures b == null ==> !Recyclable(Snaps(ring))
    {
      hide Sane, Unique, Covered;
      ghost var n := |ring|;
      assert ring[n - 1].next == ring[Next(n, n - 1)];
      var cur := head.prev;
      at := n - 1;
      while cur != head
        invariant 0 <= at < n && cur == ring[at]
        invariant forall j | at < j < n :: !Snaps(ring)[j].Idle()
        decreases at
      {
        if cur.refcnt == 0 && !cur.dirty {
          return cur, at;
        }
        assert ring[at - 1].next == ring[Next(n, at - 1)];
        cur := cur.prev;
        at := at - 1;
      }
      return null, at;
    }
  }

  /** A block whose buffer is not valid yet is up to date on the disk. */
  lemma Uncached(s: seq<Slot>, at: nat, disk: Disk, view: Disk, clock: int)
    requires Coherent(s, disk, view, clock) && 1 <= at < |s| && s[at].dev != 0 && !s[at].valid
    ensures (s[at].dev, s[at].blockno) in disk && disk[(s[at].dev, s[at].blockno)] == view[(s[at].dev, s[at].blockno)]
  {
    var k := (s[at].dev, s[at].blockno);
    assert Sane(s[at], disk, view);
    forall i | 1 <= i < |s| && i != at ensures !s[i].Holds(k.0, k.1) {
      assert i < at && s[i].dev != 0 ==> !s[at].Holds(s[i].dev, s[i].blockno);
      assert at < i ==> !s[i].Holds(s[at].dev, s[at].blockno);
    }
    assert !Cached(s, k);
  }

  /** A disk transfer keeps the cache coherent. */
  lemma Transferred(s: seq<Slot>, at: nat, disk: Disk, view: Disk, clock: int)
    requires Coherent(s, disk, view, clock) && 1 <= at < |s| && s[at].locked && (s[at].dirty || !s[at].valid)
    ensures var key := (s[at].dev, s[at].blockno);
      && key in disk && key in view && disk.Keys == view.Keys
      && var x := s[at].(data := view[key], valid := true, dirty := false);
         var disk2 := if s[at].dirty then disk[key := s[at].data] else disk;
         Coherent(s[at := x], disk2, view, clock) && (s[at].dirty ==> s[at].data == view[key])
           && (!s[at].dirty ==> disk[key] == view[key])
  {
    CoherentAt(s, at, disk, view, clock);
    if !s[at].valid { Uncached(s, at, disk, view, clock); }
    var key := (s[at].dev, s[at].blockno);
    var x := s[at].(data := view[key], valid := true, dirty := false);
    HeldKeeps(s, at, x, disk, view, if s[at].dirty then disk[key := s[at].data] else disk, view, clock);
  }

  lemma CoherentAt(s: seq<Slot>, at: nat, disk: Disk, view: Disk, clock: int)
    requires Coherent(s, disk, view, clock) && 1 <= at < |s|
    ensures Sane(s[at], disk, view) && disk.Keys == view.Keys
  {
  }

  lemma GotHit(s: seq<Slot>, dev: int, blockno: int, at: nat)
    requires 1 <= at < |s| && s[at].Holds(dev, blockno)
    ensures Got(s, s[at := s[at].(refcnt := s[at].refcnt + 1)], dev, blockno, at, false)
  {
  }

  lemma GotVictim(s: seq<Slot>, dev: int, blockno: int, at: nat)
    requires 1 <= at < |s| && s[at].Idle() && !Hits(s, dev, blockno)
    requires forall j | 1 <= j < |s| && s[j].Idle() :: s[at].when <= s[j].when
    ensures var x := s[at].(dev := dev, blockno := blockno, valid := false, refcnt := 1);
            Got(s, s[at := x], dev, blockno, at, false)
  {
  }

  lemma GotNone(s: seq<Slot>, dev: int, blockno: int, at: nat)
    requires !Hits(s, dev, blockno) && !Recyclable(s)
    ensures Got(s, s, dev, blockno, at, true)
  {
  }

  /** The ring as binit builds it. */
  ghost predicate Blank(s: seq<Slot>, clock: int) {
    Ordered(s, clock) && forall i | 1 <= i < |s| ::
      s[i].dev == s[i].blockno == 0 && !s[i].valid && !s[i].dirty && s[i].refcnt == 0 && !s[i].locked && !s[i].unsaved
  }

  /** Device 0 is the exception to one buffer per block: at boot every buffer is its block 0. */
  lemma BlankTwice(s: seq<Slot>, clock: int)
    requires Blank(s, clock) && |s| > 2
    ensures (s[1].dev, s[1].blockno) == (0, 0) == (s[2].dev, s[2].blockno)
  {
  }

  lemma Alone(head: Buf)
    requires head.next == head && head.prev == head
    ensures Linked([head]) && Blank(Snaps([head]), 0)
  {
  }

  lemma Pushed(s: seq<Slot>, b: Slot, clock: int)
    requires Blank(s, clock) && s != []
    requires b.dev == b.blockno == 0 && !b.valid && !b.dirty && b.refcnt == 0 && !b.locked && !b.unsaved
    requires b.when == clock
    ensures Blank([s[0], b] + s[1..], clock + 1)
  {
    var t := [s[0], b] + s[1..];
    assert forall j | 2 <= j < |t| :: t[j] == s[j - 1];
  }

  twostate lemma SnapsPushed(r: seq<Buf>, new b: Buf)
    requires r != [] && forall x | x in r :: old(Snap(x)) == Snap(x)
    ensures Snaps([r[0], b] + r[1..]) == [old(Snaps(r))[0], Snap(b)] + old(Snaps(r))[1..]
  {
    hide Snaps;
    var q := [r[0], b] + r[1..];
    forall j | 0 <= j < |q| && j != 1 ensures Snaps(q)[j] == old(Snaps(r))[if j == 0 then 0 else j - 1] {
      var x := r[if j == 0 then 0 else j - 1];
      assert q[j] == x && x in r;
      assert old(Snaps(r))[if j == 0 then 0 else j - 1] == old(Snap(x));
    }
  }

  lemma LinkedSome(r: seq<Buf>)
    requires Linked(r)
    ensures r != []
  {
  }

  /** One round of binit. */
  method NewFront(head: Buf, ghost r: seq<Buf>, ghost clock: int) returns (ghost r2: seq<Buf>)
    requires Linked(r) && r[0] == head && Blank(Snaps(r), clock)
    modifies r`next, r`prev
    ensures |r2| == |r| + 1 && r2[0] == head && fresh(r2[1])
    ensures forall j | 0 <= j < |r2| && j != 1 :: r2[j] == r[if j == 0 then 0 else j - 1]
    ensures Linked(r2) && Blank(Snaps(r2), clock + 1)
  {
    hide Blank, Snaps, Linked;
    var b := new Buf(clock);
    LinkedSome(r);
    Pushed(Snaps(r), Snap(b), clock);
    PushFront(head, b, r);
    r2 := [head, b] + r[1..];
    SnapsPushed(r, b);
  }

  lemma BlankCoherent(s: seq<Slot>, d: Disk, clock: int)
    requires Blank(s, clock)
    ensures Coherent(s, d, d, clock)
  {
  }
}
