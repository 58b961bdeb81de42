/** The circular doubly linked list of buffers in bio.c. */
module Ring {
  import opened Blocks

  class Buf {
    var dev: int
    var blockno: int
    var valid: bool            // B_VALID
    var dirty: bool            // B_DIRTY
    var refcnt: int
    var locked: bool           // the buffer's sleeplock
    var prev: Buf
    var next: Buf
    var data: Block
    ghost var unsaved: bool    // changed by its holder, who has not yet called bwrite or log_write
    ghost var when: int        // time of the last release to zero

    constructor (ghost now: int)
      ensures when == now
      ensures dev == 0 && blockno == 0 && !valid && !dirty && refcnt == 0 && !locked && !unsaved
      ensures prev == this && next == this
    {
      dev, blockno, valid, dirty, refcnt, locked := 0, 0, false, false, 0, false;
      prev, next := this, this;
      data := Zeroed();
      unsaved, when := false, now;
    }

    /** The flags once the disk is done. */
    method Arrive()
      modifies this`valid, this`dirty
      ensures valid && !dirty
    {
      valid, dirty := true, false;
    }

    /** The last reference goes. */
    method Retire(ghost now: int)
      modifies this`refcnt, this`when
      ensures refcnt == old(refcnt) - 1 && when == now
    {
      refcnt := refcnt - 1;
      when := now;
    }

    /** A reference more, for a block already here. */
    method Reference()
      modifies this`refcnt
      ensures refcnt == old(refcnt) + 1
    {
      refcnt := refcnt + 1;
    }

    /** Emptied for another block. */
    method Recycle(dev0: int, blockno0: int)
      modifies this`dev, this`blockno, this`valid, this`dirty, this`refcnt
      ensures dev == dev0 && blockno == blockno0 && !valid && !dirty && refcnt == 1
    {
      dev := dev0;
      blockno := blockno0;
      valid, dirty := false, false;
      refcnt := 1;
    }
  }

  function Next(n: nat, i: nat): nat
    requires i < n
  {
    if i + 1 < n then i + 1 else 0
  }

  ghost predicate Linked(r: seq<Buf>)
    reads r`next, r`prev
  {
    && |r| >= 1
    && (forall i, j | 0 <= i < j < |r| :: r[i] != r[j])
    && (forall i | 0 <= i < |r| :: r[i].next == r[Next(|r|, i)] && r[Next(|r|, i)].prev == r[i])
  }

  lemma Without(r: seq<Buf>, i: nat, j: nat)
    requires 0 < i < |r| && j < |r| - 1
    ensures var s, x := r[..i] + r[i + 1..], if j < i then j else j + 1;
            |s| == |r| - 1 && s[j] == r[x] && s[Next(|s|, j)] == if j == i - 1 then r[Next(|r|, i)] else r[Next(|r|, x)]
  {
  }

  method Unlink(b: Buf, ghost r: seq<Buf>, ghost i: nat)
    requires Linked(r) && 0 < i < |r| && r[i] == b
    modifies r`next, r`prev
    ensures Linked(r[..i] + r[i + 1..])
  {
    ghost var n := |r|;
    assert r[i - 1].next == r[Next(n, i - 1)] && r[Next(n, i - 1)].prev == r[i - 1];
    assert r[i].next == r[Next(n, i)] && r[Next(n, i)].prev == r[i];
    ghost var p, q := r[i - 1], r[Next(n, i)];
    b.next.prev := b.prev;
    assert b.prev == p && q.prev == p;
    b.prev.next := b.next;
    ghost var s := r[..i] + r[i + 1..];
    forall j | 0 <= j < |s| ensures s[j].next == s[Next(|s|, j)] && s[Next(|s|, j)].prev == s[j] {
      Without(r, i, j);
    }
  }

  method PushFront(head: Buf, b: Buf, ghost r: seq<Buf>)
    requires Linked(r) && r[0] == head && b !in r
    modifies r`next, r`prev, b`next, b`prev
    ensures Linked([head, b] + r[1..])
  {
    b.next := head.next;
    b.prev := head;
    ghost var n := |r|;
    assert r[0].next == r[Next(n, 0)];
    head.next.prev := b;
    head.next := b;
    ghost var s := [head, b] + r[1..];
    forall j | 0 <= j < |s| ensures s[j].next == s[Next(|s|, j)] && s[Next(|s|, j)].prev == s[j] {
      assert j >= 2 ==> s[j] == r[j - 1] && s[Next(|s|, j)] == r[Next(n, j - 1)];
    }
  }
}
