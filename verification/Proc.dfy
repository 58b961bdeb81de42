/** proc.c and sleeplock.c: the process table as fork, exit, wait, kill, sleep and wakeup leave it each time the locks
    are free. Each method is one stretch of code under ptable.lock, run by process `cur`. */
module Proc {
  const NPROC: nat := 64

  datatype State = UNUSED | EMBRYO | SLEEPING | RUNNABLE | RUNNING | ZOMBIE

  /** What a process sleeps on: a process (in wait), a sleeplock, or any other address. */
  datatype Chan = None | OnProc(p: nat) | OnLock(l: nat) | Other(a: int)

  /** parent is an index, or -1. */
  datatype Entry = Entry(state: State, pid: int, chan: Chan, parent: int, killed: bool) {
    predicate Alive() { state == RUNNING || state == RUNNABLE || state == SLEEPING }

    predicate AsleepOn(c: Chan) { state == SLEEPING && chan == c }

    function Awake(): Entry { this.(state := RUNNABLE) }
  }

  datatype Lock = Lock(locked: bool, pid: int)

  /** Parents are alive, and an unused entry has none. */
  ghost predicate Family(s: seq<Entry>, init: nat) {
    && init < |s| && s[init].Alive() && s[init].parent == -1
    && forall i | 0 <= i < |s| :: (s[i].state == UNUSED ==> s[i].parent == -1)
         && (s[i].parent != -1 ==> 0 <= s[i].parent < |s| && s[i].parent != i && s[s[i].parent].Alive())
  }

  ghost predicate HasChild(s: seq<Entry>, p: int) {
    exists i | 0 <= i < |s| :: s[i].parent == p
  }

  ghost predicate HasZombie(s: seq<Entry>, p: int) {
    exists i | 0 <= i < |s| :: s[i].parent == p && s[i].state == ZOMBIE
  }

  /** Whoever sleeps in wait has a child to wait for, and none that has exited. */
  ghost predicate Waits(s: seq<Entry>) {
    forall i | 0 <= i < |s| && s[i].state == SLEEPING && s[i].chan.OnProc? ::
      s[i].chan.p == i && HasChild(s, i) && !HasZombie(s, i)
  }

  /** Live pids are in use once, and a reaped one never again. */
  ghost predicate Pids(s: seq<Entry>, nextpid: int, reaped: set<int>) {
    && (forall i | 0 <= i < |s| && s[i].state != UNUSED :: s[i].pid < nextpid && s[i].pid !in reaped)
    && (forall i, j | 0 <= i < j < |s| && s[i].state != UNUSED && s[j].state != UNUSED :: s[i].pid != s[j].pid)
    && (forall p | p in reaped :: p < nextpid)
  }

  /** Whoever sleeps in acquiresleep faces a held lock. */
  ghost predicate Locks(s: seq<Entry>, locks: seq<Lock>) {
    forall i | 0 <= i < |s| && s[i].state == SLEEPING && s[i].chan.OnLock? ::
      s[i].chan.l < |locks| && locks[s[i].chan.l].locked
  }

  /** wakeup1 */
  function Woken(s: seq<Entry>, c: Chan): (r: seq<Entry>)
    ensures |r| == |s|
  {
    seq(|s|, i requires 0 <= i < |s| => if s[i].AsleepOn(c) then s[i].Awake() else s[i])
  }

  /** The three invariants of the table. */
  ghost predicate Inv(s: seq<Entry>, init: nat, nextpid: int, reaped: set<int>) {
    Family(s, init) && Waits(s) && Pids(s, nextpid, reaped)
  }

  /** Nobody is born, dies, changes parents or goes to sleep. */
  ghost predicate Calm(s: seq<Entry>, r: seq<Entry>) {
    |r| == |s| && forall i | 0 <= i < |s| ::
      r[i].pid == s[i].pid && r[i].parent == s[i].parent && (r[i].Alive() <==> s[i].Alive())
      && (r[i].state == UNUSED <==> s[i].state == UNUSED) && (r[i].state == ZOMBIE <==> s[i].state == ZOMBIE)
      && (r[i].state == SLEEPING ==> s[i].state == SLEEPING && r[i].chan == s[i].chan)
  }

  lemma CalmKeeps(s: seq<Entry>, r: seq<Entry>, init: nat, nextpid: int, reaped: set<int>, locks: seq<Lock>)
    requires Calm(s, r)
    ensures Inv(s, init, nextpid, reaped) ==> Inv(r, init, nextpid, reaped)
    ensures Locks(s, locks) ==> Locks(r, locks)
  {
    forall i | 0 <= i < |s| ensures (HasChild(s, i) ==> HasChild(r, i)) && (HasZombie(r, i) ==> HasZombie(s, i)) {
      CalmChildren(s, r, i);
    }
    hide HasChild, HasZombie;
  }

  lemma CalmChildren(s: seq<Entry>, r: seq<Entry>, p: int)
    requires Calm(s, r)
    ensures (HasChild(s, p) ==> HasChild(r, p)) && (HasZombie(r, p) ==> HasZombie(s, p))
  {
    if HasChild(s, p) {
      var i :| 0 <= i < |s| && s[i].parent == p;
      assert r[i].parent == p;
    }
    if HasZombie(r, p) {
      var i :| 0 <= i < |r| && r[i].parent == p && r[i].state == ZOMBIE;
      assert s[i].parent == p && s[i].state == ZOMBIE;
    }
  }

  /** exit, of process cur: its parent woken, its children given to init, init woken if one of them has exited. */
  function Exited(s: seq<Entry>, cur: nat, init: nat, zombie: bool): (r: seq<Entry>)
    requires cur < |s|
    ensures |r| == |s|
  {
    seq(|s|, i requires 0 <= i < |s| =>
      var e := if i == cur then s[i].(state := ZOMBIE)
               else if s[i].state == SLEEPING
                 && (s[i].chan == ParentChan(s, cur) || (zombie && s[i].chan == OnProc(init)))
               then s[i].Awake() else s[i];
      if s[i].parent == cur then e.(parent := init) else e)
  }

  /** The channel cur's parent would wait on. */
  function ParentChan(s: seq<Entry>, cur: nat): Chan
    requires cur < |s|
  {
    if s[cur].parent < 0 then None else OnProc(s[cur].parent)
  }

  lemma ExitKeeps(s: seq<Entry>, cur: nat, init: nat, nextpid: int, reaped: set<int>, locks: seq<Lock>)
    requires Inv(s, init, nextpid, reaped) && cur < |s| && s[cur].state == RUNNING && cur != init
    ensures var r := Exited(s, cur, init, HasZombie(s, cur));
      Inv(r, init, nextpid, reaped) && (Locks(s, locks) ==> Locks(r, locks)) && !HasChild(r, cur)
  {
    var r := Exited(s, cur, init, HasZombie(s, cur));
    ExitFamily(s, cur, init, HasZombie(s, cur));
    ExitRest(s, cur, init, HasZombie(s, cur), nextpid, reaped, locks);
    hide Pids, Locks, Exited;
    forall i | 0 <= i < |r| && r[i].state == SLEEPING && r[i].chan.OnProc?
      ensures r[i].chan.p == i && HasChild(r, i) && !HasZombie(r, i) {
      ExitWaits(s, cur, init, i);
    }
    hide Family, HasChild, HasZombie;
  }

  lemma ExitFamily(s: seq<Entry>, cur: nat, init: nat, zombie: bool)
    requires Family(s, init) && cur < |s| && s[cur].state == RUNNING && cur != init
    ensures Family(Exited(s, cur, init, zombie), init) && !HasChild(Exited(s, cur, init, zombie), cur)
  {
    var r := Exited(s, cur, init, zombie);
    forall i | 0 <= i < |s|
      ensures r[i].parent == (if s[i].parent == cur then init else s[i].parent) && r[i].parent != cur
      ensures (i != cur ==> (r[i].Alive() <==> s[i].Alive())) && (r[i].state == UNUSED ==> s[i].state == UNUSED) {
    }
    hide Exited;
    assert forall i | 0 <= i < |s| && s[i].parent == cur :: i != init;
  }

  lemma ExitRest(s: seq<Entry>, cur: nat, init: nat, zombie: bool, nextpid: int, reaped: set<int>, locks: seq<Lock>)
    requires Pids(s, nextpid, reaped) && cur < |s| && s[cur].state == RUNNING
    ensures Pids(Exited(s, cur, init, zombie), nextpid, reaped)
    ensures Locks(s, locks) ==> Locks(Exited(s, cur, init, zombie), locks)
  {
    var r := Exited(s, cur, init, zombie);
    forall i | 0 <= i < |s|
      ensures r[i].pid == s[i].pid && (r[i].state == UNUSED <==> s[i].state == UNUSED)
      ensures r[i].state == SLEEPING ==> s[i].state == SLEEPING && s[i].chan == r[i].chan {
    }
    hide Exited;
  }

  lemma ExitWaits(s: seq<Entry>, cur: nat, init: nat, i: nat)
    requires Family(s, init) && Waits(s) && cur < |s| && s[cur].state == RUNNING && cur != init && i < |s|
    requires var r := Exited(s, cur, init, HasZombie(s, cur)); r[i].state == SLEEPING && r[i].chan.OnProc?
    ensures var r := Exited(s, cur, init, HasZombie(s, cur)); r[i].chan.p == i && HasChild(r, i) && !HasZombie(r, i)
  {
    var r := Exited(s, cur, init, HasZombie(s, cur));
    assert s[i].state == SLEEPING && s[i].chan == r[i].chan;
    var c :| 0 <= c < |s| && s[c].parent == i;
    assert r[c].parent == i;
    assert s[cur].parent != i;
    assert forall j | 0 <= j < |s| && s[j].parent == i :: s[j].state != ZOMBIE;
    assert i == init ==> !HasZombie(s, cur);
  }

  /** The first exited child in the table. */
  ghost predicate FirstZombie(s: seq<Entry>, cur: int, z: nat) {
    && z < |s| && s[z].parent == cur && s[z].state == ZOMBIE
    && forall i | 0 <= i < z :: !(s[i].parent == cur && s[i].state == ZOMBIE)
  }

  ghost predicate ReapedAt(s: seq<Entry>, r: seq<Entry>, cur: int, z: nat, pid: int) {
    FirstZombie(s, cur, z) && pid == s[z].pid
    && r == s[z := s[z].(state := UNUSED, pid := 0, parent := -1, killed := false)]
  }

  function Reap(e: Entry): Entry {
    e.(state := UNUSED, pid := 0, parent := -1, killed := false)
  }

  lemma ReapKeeps(s: seq<Entry>, cur: nat, z: nat, init: nat, nextpid: int, reaped: set<int>, locks: seq<Lock>)
    requires Inv(s, init, nextpid, reaped) && cur < |s| && s[cur].state == RUNNING && FirstZombie(s, cur, z)
    ensures var r := s[z := Reap(s[z])];
      Inv(r, init, nextpid, reaped + {s[z].pid}) && (Locks(s, locks) ==> Locks(r, locks))
    ensures s[z].pid !in reaped
  {
    var r := s[z := Reap(s[z])];
    forall i | 0 <= i < |s| && s[i].state == SLEEPING
      ensures (HasChild(s, i) ==> HasChild(r, i)) && (HasZombie(r, i) ==> HasZombie(s, i)) {
      ReapChildren(s, cur, z, i);
    }
    hide HasChild, HasZombie;
  }

  lemma ReapChildren(s: seq<Entry>, cur: nat, z: nat, i: nat)
    requires cur < |s| && s[cur].state == RUNNING && FirstZombie(s, cur, z) && i < |s| && s[i].state == SLEEPING
    ensures var r := s[z := Reap(s[z])]; (HasChild(s, i) ==> HasChild(r, i)) && (HasZombie(r, i) ==> HasZombie(s, i))
  {
    var r := s[z := Reap(s[z])];
    if HasChild(s, i) {
      var c :| 0 <= c < |s| && s[c].parent == i;
      assert r[c].parent == i;
    }
    if HasZombie(r, i) {
      var c :| 0 <= c < |r| && r[c].parent == i && r[c].state == ZOMBIE;
      assert s[c] == r[c];
    }
  }

  /** Going to sleep in wait, after the scan found a child and no zombie. */
  lemma SleepKeeps(s: seq<Entry>, cur: nat, init: nat, nextpid: int, reaped: set<int>, locks: seq<Lock>)
    requires Inv(s, init, nextpid, reaped) && cur < |s| && s[cur].state == RUNNING && HasChild(s, cur)
    requires !HasZombie(s, cur)
    ensures var r := s[cur := s[cur].(chan := OnProc(cur), state := SLEEPING)];
      Inv(r, init, nextpid, reaped) && (Locks(s, locks) ==> Locks(r, locks))
  {
    var r := s[cur := s[cur].(chan := OnProc(cur), state := SLEEPING)];
    forall i | 0 <= i < |s| ensures (HasChild(s, i) <==> HasChild(r, i)) && (HasZombie(r, i) <==> HasZombie(s, i)) {
      SameChildren(s, cur, r[cur], i);
    }
    hide HasChild, HasZombie;
  }

  lemma SameChildren(s: seq<Entry>, k: nat, e: Entry, p: int)
    requires k < |s| && e.parent == s[k].parent && (e.state == ZOMBIE <==> s[k].state == ZOMBIE)
    ensures (HasChild(s, p) <==> HasChild(s[k := e], p)) && (HasZombie(s[k := e], p) <==> HasZombie(s, p))
  {
    var r := s[k := e];
    if HasChild(s, p) {
      var c :| 0 <= c < |s| && s[c].parent == p;
      assert r[c].parent == p;
    }
    if HasChild(r, p) {
      var c :| 0 <= c < |r| && r[c].parent == p;
      assert s[c].parent == p;
    }
    if HasZombie(s, p) {
      var c :| 0 <= c < |s| && s[c].parent == p && s[c].state == ZOMBIE;
      assert r[c].parent == p && r[c].state == ZOMBIE;
    }
    if HasZombie(r, p) {
      var c :| 0 <= c < |r| && r[c].parent == p && r[c].state == ZOMBIE;
      assert s[c].parent == p && s[c].state == ZOMBIE;
    }
  }

  /** A process goes to sleep on something other than a child. */
  lemma DozeKeeps(s: seq<Entry>, cur: nat, c: Chan, init: nat, nextpid: int, reaped: set<int>)
    requires Inv(s, init, nextpid, reaped) && cur < |s| && s[cur].state == RUNNING && !c.OnProc?
    ensures Inv(s[cur := s[cur].(chan := c, state := SLEEPING)], init, nextpid, reaped)
  {
    hide HasChild, HasZombie;
    var r := s[cur := s[cur].(chan := c, state := SLEEPING)];
    DozePids(s, cur, c, nextpid, reaped);
    forall i | 0 <= i < |s| ensures (HasChild(s, i) <==> HasChild(r, i)) && (HasZombie(r, i) <==> HasZombie(s, i)) {
      SameChildren(s, cur, r[cur], i);
    }
    hide Pids;
  }

  lemma DozePids(s: seq<Entry>, cur: nat, c: Chan, nextpid: int, reaped: set<int>)
    requires Pids(s, nextpid, reaped) && cur < |s| && s[cur].state == RUNNING
    ensures Pids(s[cur := s[cur].(chan := c, state := SLEEPING)], nextpid, reaped)
  {
  }

  /** What fork and allocproc may make of an entry. */
  ghost predicate Birth(s: seq<Entry>, k: nat, e: Entry, nextpid: int, nextpid2: int) {
    && k < |s| && nextpid <= nextpid2 && (s[k].state == UNUSED || s[k].state == EMBRYO)
    && (e.state == UNUSED || e.state == EMBRYO || e.state == RUNNABLE)
    && (e.state == UNUSED ==> e.parent == -1 == s[k].parent)
    && (s[k].state == UNUSED && e.state != UNUSED ==> e.pid == nextpid < nextpid2)
    && (s[k].state == EMBRYO ==> e.pid == s[k].pid)
    && (e.parent == s[k].parent || (s[k].parent == -1 && 0 <= e.parent < |s| && e.parent != k && s[e.parent].Alive()))
  }

  lemma BornKeeps(s: seq<Entry>, k: nat, e: Entry, init: nat, nextpid: int, nextpid2: int, reaped: set<int>,
                  locks: seq<Lock>)
    requires Inv(s, init, nextpid, reaped) && Birth(s, k, e, nextpid, nextpid2)
    ensures Inv(s[k := e], init, nextpid2, reaped) && (Locks(s, locks) ==> Locks(s[k := e], locks))
  {
    var r := s[k := e];
    forall i | 0 <= i < |s| ensures (HasChild(s, i) ==> HasChild(r, i)) && (HasZombie(r, i) ==> HasZombie(s, i)) {
      BornChildren(s, k, e, nextpid, nextpid2, i);
    }
    BornFamily(s, k, e, init, nextpid, nextpid2);
    hide HasChild, HasZombie, Family;
  }

  lemma BornFamily(s: seq<Entry>, k: nat, e: Entry, init: nat, nextpid: int, nextpid2: int)
    requires Family(s, init) && Birth(s, k, e, nextpid, nextpid2)
    ensures Family(s[k := e], init)
  {
  }

  lemma BornChildren(s: seq<Entry>, k: nat, e: Entry, nextpid: int, nextpid2: int, p: nat)
    requires Birth(s, k, e, nextpid, nextpid2)
    ensures (HasChild(s, p) ==> HasChild(s[k := e], p)) && (HasZombie(s[k := e], p) ==> HasZombie(s, p))
  {
    var r := s[k := e];
    if HasChild(s, p) { var c :| 0 <= c < |s| && s[c].parent == p; assert r[c].parent == p; }
    if HasZombie(r, p) { var c :| 0 <= c < |r| && r[c].parent == p && r[c].state == ZOMBIE; assert s[c] == r[c]; }
  }

  /** The first entry with that pid, used or not. */
  ghost predicate FirstWith(s: seq<Entry>, pid: int, i: nat) {
    i < |s| && s[i].pid == pid && forall j | 0 <= j < i :: s[j].pid != pid
  }

  /** Entry i is unused and not yet marked as killed. */
  predicate Clean(s: seq<Entry>, i: nat) {
    i < |s| && s[i].state == UNUSED && !s[i].killed
  }

  datatype Waited = Reaped(pid: int) | Nothing | Slept

  class Kernel {
    const proc: array<Entry>
    const lock: array<Lock>
    const initproc: nat
    var nextpid: int
    ghost var reaped: set<int>

    /** What holds whenever ptable.lock and the sleeplocks' spinlocks are free. */
    ghost predicate Valid()
      reads this, proc, lock
    {
      proc.Length == NPROC && Inv(proc[..], initproc, nextpid, reaped) && Locks(proc[..], lock[..])
    }

    /** userinit: one process, init. */
    constructor (locks: nat)
      ensures Valid() && fresh(proc) && fresh(lock) && lock.Length == locks && initproc == 0
      ensures forall i | 0 <= i < NPROC ::
        proc[i] == if i == 0 then Entry(RUNNABLE, 1, None, -1, false) else Entry(UNUSED, 0, None, -1, false)
    {
      proc := new Entry[NPROC](i => if i == 0 then Entry(RUNNABLE, 1, None, -1, false)
        else Entry(UNUSED, 0, None, -1, false));
      lock := new Lock[locks](_ => Lock(false, 0));
      initproc, nextpid, reaped := 0, 2, {};
    }

    /** wakeup1, as a loop over the table. */
    method Wakeup1(c: Chan)
      requires proc.Length == NPROC
      modifies proc
      ensures proc[..] == Woken(old(proc[..]), c)
    {
      var p := 0;
      while p < NPROC
        invariant 0 <= p <= NPROC
        invariant forall i | 0 <= i < p :: proc[i] == Woken(old(proc[..]), c)[i]
        invariant forall i | p <= i < NPROC :: proc[i] == old(proc[i])
      {
        if proc[p].state == SLEEPING && proc[p].chan == c {
          proc[p] := proc[p].(state := RUNNABLE);
        }
        p := p + 1;
      }
    }

    /** wakeup */
    method Wakeup(c: Chan)
      requires Valid()
      modifies proc
      ensures Valid() && proc[..] == Woken(old(proc[..]), c)
      ensures forall i | 0 <= i < NPROC ::
        proc[i] == if old(proc[i].state) == SLEEPING
          && old(proc[i].chan) == c then old(proc[i]).(state := RUNNABLE) else old(proc[i])
    {
      ghost var s := proc[..];
      Wakeup1(c);
      CalmKeeps(s, proc[..], initproc, nextpid, reaped, lock[..]);
    }

    /** kill: the first entry with that pid is marked, and runs again if it slept. */
    method Kill(pid: int) returns (r: int)
      requires Valid()
      modifies proc
      ensures Valid() && (r == 0 || r == -1)
      ensures r == -1 ==> proc[..] == old(proc[..]) && forall i | 0 <= i < NPROC :: proc[i].pid != pid
      ensures r == 0 ==>
        exists i: nat :: FirstWith(old(proc[..]), pid, i)
          && proc[..] == old(proc[..])[i := old(proc[i]).(killed := true, state := Waking(old(proc[i].state)))]
      ensures MarksUnused(old(proc[..]), proc[..]) <==> FindsUnused(old(proc[..]), pid)
    {
      hide Inv, Locks, MarksUnused, FindsUnused;
      var p := 0;
      ghost var s := proc[..];
      while p < NPROC
        invariant 0 <= p <= NPROC && proc[..] == s
        invariant forall j | 0 <= j < p :: s[j].pid != pid
      {
        if proc[p].pid == pid {
          proc[p] := proc[p].(killed := true);
          if proc[p].state == SLEEPING {
            proc[p] := proc[p].(state := RUNNABLE);
          }
          assert proc[..] == s[p := Killed(s[p])] && FirstWith(s, pid, p);
          CalmKeeps(s, proc[..], initproc, nextpid, reaped, lock[..]);
          MarkedIff(s, p, pid);
          return 0;
        }
        p := p + 1;
      }
      MarkedNone(s, pid);
      return -1;
    }

    /** allocproc: the first unused entry, with a new pid, or -1. */
    method Allocproc() returns (p: int)
      requires Valid()
      modifies proc, this`nextpid
      ensures Valid() && -1 <= p < NPROC
      ensures p == -1 ==> proc[..] == old(proc[..]) && nextpid == old(nextpid)
      ensures p == -1 ==> forall i | 0 <= i < NPROC :: proc[i].state != UNUSED
      ensures p != -1 ==> old(proc[p].state) == UNUSED && nextpid == old(nextpid) + 1
      ensures p != -1 ==> forall i | 0 <= i < p :: old(proc[i].state) != UNUSED
      ensures p != -1 ==> proc[..] == old(proc[..])[p := old(proc[p]).(state := EMBRYO, pid := old(nextpid))]
    {
      p := 0;
      ghost var s := proc[..];
      while p < NPROC
        invariant 0 <= p <= NPROC && proc[..] == s && nextpid == old(nextpid)
        invariant forall j | 0 <= j < p :: s[j].state != UNUSED
      {
        if proc[p].state == UNUSED {
          BornKeeps(s, p, s[p].(state := EMBRYO, pid := nextpid), initproc, nextpid, nextpid + 1, reaped, lock[..]);
          proc[p] := proc[p].(state := EMBRYO);
          proc[p] := proc[p].(pid := nextpid);
          nextpid := nextpid + 1;
          assert proc[..] == s[p := s[p].(state := EMBRYO, pid := old(nextpid))];
          return;
        }
        p := p + 1;
      }
      return -1;
    }

    /** allocproc or fork gives up: the entry is unused again. */
    method Abandon(p: nat)
      requires Valid() && p < NPROC && proc[p].state == EMBRYO && proc[p].parent == -1
      modifies proc
      ensures Valid() && proc[..] == old(proc[..])[p := old(proc[p]).(state := UNUSED)]
    {
      BornKeeps(proc[..], p, proc[p].(state := UNUSED), initproc, nextpid, nextpid, reaped, lock[..]);
      ghost var s := proc[..];
      proc[p] := proc[p].(state := UNUSED);
      assert proc[..] == s[p := s[p].(state := UNUSED)];
    }

    /** fork: the new entry becomes cur's child, before it can run. */
    method Adopt(cur: nat, p: nat)
      requires Valid() && cur < NPROC && proc[cur].state == RUNNING
      requires p < NPROC && proc[p].state == EMBRYO && proc[p].parent == -1
      modifies proc
      ensures Valid() && proc[..] == old(proc[..])[p := old(proc[p]).(parent := cur)]
    {
      BornKeeps(proc[..], p, proc[p].(parent := cur), initproc, nextpid, nextpid, reaped, lock[..]);
      ghost var s := proc[..];
      proc[p] := proc[p].(parent := cur);
      assert proc[..] == s[p := s[p].(parent := cur)];
    }

    /** The last step of fork. */
    method Start(p: nat)
      requires Valid() && p < NPROC && proc[p].state == EMBRYO
      modifies proc
      ensures Valid() && proc[..] == old(proc[..])[p := old(proc[p]).(state := RUNNABLE)]
    {
      BornKeeps(proc[..], p, proc[p].(state := RUNNABLE), initproc, nextpid, nextpid, reaped, lock[..]);
      ghost var s := proc[..];
      proc[p] := proc[p].(state := RUNNABLE);
      assert proc[..] == s[p := s[p].(state := RUNNABLE)];
    }

    /** exit, from acquiring ptable.lock on. */
    method Exit(cur: nat)
      requires Valid() && cur < NPROC && proc[cur].state == RUNNING && cur != initproc
      modifies proc
      ensures Valid() && proc[..] == Exited(old(proc[..]), cur, initproc, HasZombie(old(proc[..]), cur))
      ensures !HasChild(proc[..], cur) && proc[cur].state == ZOMBIE
    {
      ghost var s := proc[..];
      ghost var zombie := HasZombie(s, cur);
      ExitKeeps(s, cur, initproc, nextpid, reaped, lock[..]);
      hide Inv, Locks, HasZombie, HasChild, Woken, Passed, Exited;
      if proc[cur].parent >= 0 {
        Wakeup1(OnProc(proc[cur].parent));
      } else {
        Wakeup1(None);
      }
      Reparent(cur, s);
      proc[cur] := proc[cur].(state := ZOMBIE);
      forall i | 0 <= i < NPROC ensures proc[..][i] == Exited(s, cur, initproc, zombie)[i] {
        PassedExited(s, cur, initproc, zombie, i);
      }
      assert proc[..] == Exited(s, cur, initproc, zombie);
    }

    /** The loop of exit: children go to init, which wakes if one of them has exited. */
    method Reparent(cur: nat, ghost s: seq<Entry>)
      requires proc.Length == NPROC == |s| && Family(s, initproc) && initproc < NPROC && cur < NPROC
      requires s[cur].state == RUNNING && cur != initproc
      requires proc[..] == Woken(s, ParentChan(s, cur))
      modifies proc
      ensures forall i | 0 <= i < NPROC :: proc[i] == Passed(s, cur, initproc, HasZombie(s, cur), NPROC, i)
    {
      ghost var zombie := false;
      var p := 0;
      while p < NPROC
        invariant 0 <= p <= NPROC
        invariant zombie <==> exists j | 0 <= j < p :: s[j].parent == cur && s[j].state == ZOMBIE
        invariant forall i | 0 <= i < NPROC :: proc[i] == Passed(s, cur, initproc, zombie, p, i)
      {
        PassedStep(s, cur, initproc, zombie, p);
        if proc[p].parent == cur {
          proc[p] := proc[p].(parent := initproc);
          if proc[p].state == ZOMBIE {
            Wakeup1(OnProc(initproc));
            zombie := true;
          }
        }
        p := p + 1;
      }
    }

    /** wait, from acquiring ptable.lock or waking up: reaps the first exited child, gives up, or sleeps. */
    method Wait(cur: nat) returns (r: Waited)
      requires Valid() && cur < NPROC && proc[cur].state == RUNNING
      modifies proc, this`reaped
      ensures Valid()
      ensures r.Reaped? <==> HasZombie(old(proc[..]), cur)
      ensures r.Reaped? ==> exists z: nat :: ReapedAt(old(proc[..]), proc[..], cur, z, r.pid)
      ensures r.Reaped? ==> r.pid !in old(reaped) && reaped == old(reaped) + {r.pid}
      ensures !r.Reaped? ==> reaped == old(reaped)
      ensures r == Nothing ==> proc[..] == old(proc[..]) && (!HasChild(old(proc[..]), cur) || proc[cur].killed)
      ensures r == Slept ==> HasChild(old(proc[..]), cur) && !old(proc[cur].killed)
      ensures r == Slept ==> proc[..] == old(proc[..])[cur := old(proc[cur]).(chan := OnProc(cur), state := SLEEPING)]
    {
      hide Inv, Locks;
      ghost var s := proc[..];
      var havekids := false;
      var p := 0;
      while p < NPROC
        invariant 0 <= p <= NPROC && proc[..] == s && reaped == old(reaped)
        invariant havekids <==> exists i | 0 <= i < p :: s[i].parent == cur
        invariant forall i | 0 <= i < p :: !(s[i].parent == cur && s[i].state == ZOMBIE)
      {
        if proc[p].parent == cur {
          havekids := true;
          if proc[p].state == ZOMBIE {
            var pid := ReapAt(cur, p);
            assert ReapedAt(s, proc[..], cur, p, pid);
            return Reaped(pid);
          }
        }
        p := p + 1;
      }
      if !havekids || proc[cur].killed {
        return Nothing;
      }
      SleepKeeps(s, cur, initproc, nextpid, reaped, lock[..]);
      proc[cur] := proc[cur].(chan := OnProc(cur));
      proc[cur] := proc[cur].(state := SLEEPING);
      assert proc[..] == s[cur := s[cur].(chan := OnProc(cur), state := SLEEPING)];
      return Slept;
    }

    /** What wait does with an exited child. */
    method ReapAt(cur: nat, p: nat) returns (pid: int)
      requires Valid() && cur < NPROC && proc[cur].state == RUNNING && FirstZombie(proc[..], cur, p)
      modifies proc, this`reaped
      ensures Valid() && pid == old(proc[..])[p].pid && proc[..] == old(proc[..])[p := Reap(old(proc[..])[p])]
      ensures pid !in old(reaped) && reaped == old(reaped) + {pid}
    {
      ghost var s := proc[..];
      ReapKeeps(s, cur, p, initproc, nextpid, reaped, lock[..]);
      hide Inv, Locks;
      pid := proc[p].pid;
      proc[p] := proc[p].(pid := 0);
      proc[p] := proc[p].(parent := -1);
      proc[p] := proc[p].(killed := false);
      proc[p] := proc[p].(state := UNUSED);
      assert proc[..] == s[p := Reap(s[p])];
      reaped := reaped + {pid};
    }

    /** sleep on anything but a child or a sleeplock. */
    method Sleep(cur: nat, c: Chan)
      requires Valid() && cur < NPROC && proc[cur].state == RUNNING && !c.OnProc? && !c.OnLock?
      modifies proc
      ensures Valid() && proc[..] == old(proc[..])[cur := old(proc[cur]).(chan := c, state := SLEEPING)]
    {
      ghost var s := proc[..];
      DozeKeeps(s, cur, c, initproc, nextpid, reaped);
      hide Inv;
      proc[cur] := proc[cur].(chan := c);
      proc[cur] := proc[cur].(state := SLEEPING);
      assert proc[..] == s[cur := s[cur].(chan := c, state := SLEEPING)];
    }

    /** The scheduler picks a runnable process; a process coming out of sleep clears its channel. */
    method Run(cur: nat)
      requires Valid() && cur < NPROC && proc[cur].state == RUNNABLE
      modifies proc
      ensures Valid() && proc[..] == old(proc[..])[cur := old(proc[cur]).(state := RUNNING, chan := None)]
    {
      ghost var s := proc[..];
      proc[cur] := proc[cur].(state := RUNNING);
      proc[cur] := proc[cur].(chan := None);
      assert proc[..] == s[cur := s[cur].(state := RUNNING, chan := None)];
      CalmKeeps(s, proc[..], initproc, nextpid, reaped, lock[..]);
    }

    /** yield */
    method Yield(cur: nat)
      requires Valid() && cur < NPROC && proc[cur].state == RUNNING
      modifies proc
      ensures Valid() && proc[..] == old(proc[..])[cur := old(proc[cur]).(state := RUNNABLE)]
    {
      ghost var s := proc[..];
      proc[cur] := proc[cur].(state := RUNNABLE);
      CalmKeeps(s, proc[..], initproc, nextpid, reaped, lock[..]);
    }

    /** acquiresleep, from acquiring lk->lk or waking up: takes the free lock, or sleeps on the held one. */
    method Acquiresleep(cur: nat, l: nat) returns (got: bool)
      requires Valid() && cur < NPROC && l < lock.Length && proc[cur].state == RUNNING
      modifies proc, lock
      ensures Valid() && got == !old(lock[l].locked)
      ensures got ==> proc[..] == old(proc[..]) && lock[..] == old(lock[..])[l := Lock(true, proc[cur].pid)]
      ensures !got ==>
        lock[..] == old(lock[..])
          && proc[..] == old(proc[..])[cur := old(proc[cur]).(chan := OnLock(l), state := SLEEPING)]
    {
      ghost var s, k := proc[..], lock[..];
      if lock[l].locked {
        DozeKeeps(s, cur, OnLock(l), initproc, nextpid, reaped);
        hide Inv;
        proc[cur] := proc[cur].(chan := OnLock(l));
        proc[cur] := proc[cur].(state := SLEEPING);
        assert proc[..] == s[cur := s[cur].(chan := OnLock(l), state := SLEEPING)];
        return false;
      }
      lock[l] := lock[l].(locked := true);
      lock[l] := lock[l].(pid := proc[cur].pid);
      assert lock[..] == k[l := Lock(true, proc[cur].pid)];
      return true;
    }

    /** releasesleep: the lock is free and everybody who slept on it runs. */
    method Releasesleep(l: nat)
      requires Valid() && l < lock.Length
      modifies proc, lock
      ensures Valid() && lock[..] == old(lock[..])[l := Lock(false, 0)] && proc[..] == Woken(old(proc[..]), OnLock(l))
      ensures forall i | 0 <= i < NPROC :: !proc[i].AsleepOn(OnLock(l))
    {
      ghost var s, k := proc[..], lock[..];
      lock[l] := lock[l].(locked := false);
      lock[l] := lock[l].(pid := 0);
      Wakeup1(OnLock(l));
      assert lock[..] == k[l := Lock(false, 0)];
      CalmKeeps(s, proc[..], initproc, nextpid, reaped, k);
      ReleasedLocks(s, k, l);
      hide Inv;
    }

    /** holdingsleep */
    method Holdingsleep(cur: nat, l: nat) returns (r: bool)
      requires Valid() && cur < NPROC && l < lock.Length
      ensures r <==> lock[l] == Lock(true, proc[cur].pid)
    {
      r := lock[l].locked && lock[l].pid == proc[cur].pid;
    }
  }

  /** kill has marked an unused entry. */
  ghost predicate MarksUnused(s: seq<Entry>, r: seq<Entry>) {
    exists i: nat :: Clean(s, i) && !Clean(r, i)
  }

  /** The first entry with that pid is unused. */
  ghost predicate FindsUnused(s: seq<Entry>, pid: int) {
    exists i: nat :: FirstWith(s, pid, i) && Clean(s, i)
  }

  lemma MarkedIff(s: seq<Entry>, p: nat, pid: int)
    requires FirstWith(s, pid, p)
    ensures MarksUnused(s, s[p := Killed(s[p])]) <==> FindsUnused(s, pid)
  {
    var r := s[p := Killed(s[p])];
    assert !Clean(r, p);
    assert forall i: nat | i != p :: Clean(r, i) == Clean(s, i);
    assert forall i: nat | FirstWith(s, pid, i) :: i == p;
  }

  lemma MarkedNone(s: seq<Entry>, pid: int)
    requires forall i | 0 <= i < |s| :: s[i].pid != pid
    ensures !MarksUnused(s, s) && !FindsUnused(s, pid)
  {
  }

  /** kill takes an unused entry for a process, and the process born there next has been killed before it starts. */
  method BornKilled() returns (k: Kernel, p: int)
    ensures fresh(k) && k.Valid() && 0 <= p < NPROC && k.proc[p].state == EMBRYO && k.proc[p].killed
  {
    k := new Kernel(0);
    assert FirstWith(k.proc[..], 0, 1);
    var r := k.Kill(0);
    p := k.Allocproc();
  }

  lemma ReleasedLocks(s: seq<Entry>, k: seq<Lock>, l: nat)
    requires Locks(s, k) && l < |k|
    ensures Locks(Woken(s, OnLock(l)), k[l := Lock(false, 0)])
    ensures forall i | 0 <= i < |s| :: !Woken(s, OnLock(l))[i].AsleepOn(OnLock(l))
  {
  }

  lemma PassedStep(s: seq<Entry>, cur: nat, init: nat, zombie: bool, p: nat)
    requires cur < |s| && p < |s| && Family(s, init) && cur != init
    ensures s[p].parent == Passed(s, cur, init, zombie, p, p).parent
    ensures s[p].state == ZOMBIE <==> Passed(s, cur, init, zombie, p, p).state == ZOMBIE
    ensures s[p].parent != cur ==>
      forall i | 0 <= i < |s| :: Passed(s, cur, init, zombie, p + 1, i) == Passed(s, cur, init, zombie, p, i)
    ensures s[p].parent == cur ==>
      forall i | 0 <= i < |s| :: (var e := Passed(s, cur, init, zombie, p, i);
        Passed(s, cur, init, zombie, p + 1, i) == if i == p then e.(parent := init) else e)
    ensures forall i | 0 <= i < |s| :: (var e := Passed(s, cur, init, zombie, p, i);
        Passed(s, cur, init, true, p, i) == if e.AsleepOn(OnProc(init)) then e.Awake() else e)
  {
  }

  lemma PassedExited(s: seq<Entry>, cur: nat, init: nat, zombie: bool, i: nat)
    requires cur < |s| && i < |s| && s[cur].state == RUNNING
    ensures var e := Passed(s, cur, init, zombie, |s|, i);
            Exited(s, cur, init, zombie)[i] == if i == cur then e.(state := ZOMBIE) else e
  {
  }

  function Killed(e: Entry): Entry {
    e.(killed := true, state := Waking(e.state))
  }

  /** A sleeper runs again. */
  function Waking(s: State): (r: State)
    ensures r != SLEEPING && (s != SLEEPING ==> r == s) && (s == SLEEPING ==> r == RUNNABLE)
  {
    if s == SLEEPING then RUNNABLE else s
  }

  /** Entry i while exit's loop stands at p. */
  function Passed(s: seq<Entry>, cur: nat, init: nat, zombie: bool, p: nat, i: nat): Entry
    requires cur < |s| && i < |s|
  {
    var e := if s[i].state == SLEEPING && (s[i].chan == ParentChan(s, cur) || (zombie && s[i].chan == OnProc(init)))
             then s[i].Awake() else s[i];
    if i < p && s[i].parent == cur then e.(parent := init) else e
  }
}
