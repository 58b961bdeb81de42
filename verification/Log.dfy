/** log.c: the log object itself. Every method keeps a ghost run of the log machine whose last state
    is the object's, so the theorems about runs hold between any two disk writes made here. */
module Log {
  import opened Blocks
  import opened LogMachine
  import opened LogSafety

  lemma RunNext(c: Config, d0: seq<Block>, run: seq<Label>, s: State, l: Label)
    requires c.Valid() && |d0| == c.blocks && GoodHeader(c, HeaderOf(d0[c.start]))
    requires Runs(c, Boot(c, d0), run, s) && Shape(c, s) && Inv(c, Recovered(c, d0), s) && Enabled(c, s, l)
    ensures var t := Do(c, s, l); Shape(c, t) && Runs(c, Boot(c, d0), run + [l], t) && Inv(c, Recovered(c, d0), t)
  {
    hide Shape, Enabled, Do, Inv, Recovered, HeaderOf, GoodHeader;
    var t := Do(c, s, l);
    assert Runs(c, t, [], t);
    assert [l][1..] == [];
    RunsConcat(c, Boot(c, d0), run, s, [l], t);
    InvStep(c, Recovered(c, d0), s, l);
  }

  class Log {
    const c: Config
    var disk: seq<Block>        // the device
    var cur: seq<Block>         // blocks as bread returns them
    var n: nat                  // lh.n
    const block: array<nat>     // lh.block
    var outstanding: nat
    var committing: bool
    var sleepers: nat           // processes asleep on &log
    ghost const d0: seq<Block>
    ghost var run: seq<Label>
    ghost var s: State

    ghost predicate Agrees()
      reads this, block
    {
      && c.Valid() && |d0| == c.blocks && GoodHeader(c, HeaderOf(d0[c.start]))
      && Runs(c, Boot(c, d0), run, s) && Shape(c, s) && Inv(c, Recovered(c, d0), s)
      && block.Length == LOGSIZE && n <= LOGSIZE && block[..n] == s.lh
      && disk == s.disk && cur == s.cur && outstanding == |s.active| && sleepers == s.sleepers
    }

    /** Where no commit or recovery is half done. */
    ghost predicate Valid()
      reads this, block
    {
      Agrees() && s.phase in {Running, Down} && !committing
    }

    constructor (c: Config, d: seq<Block>)
      requires c.Valid() && |d| == c.blocks && GoodHeader(c, HeaderOf(d[c.start]))
      ensures Valid() && fresh(block) && this.c == c && disk == d == d0 && run == [] && s.phase == Down
    {
      this.c, d0, disk, cur := c, d, d, d;
      n, outstanding, committing, sleepers := 0, 0, false, 0;
      block := new nat[LOGSIZE];
      run, s := [], Boot(c, d);
      new;
      BootInv(c, d);
    }

    /** The loop of read_head. */
    method LoadHead(buf: Block)
      requires block.Length == LOGSIZE && WordAt(buf, 0) <= LOGSIZE
      modifies this`n, block
      ensures n <= LOGSIZE && block[..n] == HeaderOf(buf)
    {
      hide WordAt;
      n := WordAt(buf, 0);
      var i := 0;
      while i < n
        invariant 0 <= i <= n == WordAt(buf, 0)
        invariant forall k | 0 <= k < i :: block[k] == WordAt(buf, 1 + k)
        modifies block
      {
        block[i] := WordAt(buf, 1 + i);
        i := i + 1;
      }
    }

    method ReadHead()
      requires Agrees() && s.phase == Down
      modifies this`n, this`cur, this`run, this`s, block
      ensures Agrees() && run == old(run) + [LogMachine.ReadHead] && s.phase == Installing(0, true)
      ensures s.done == old(s.done) && s.active == old(s.active)
    {
      hide Inv, Recovered, Runs, WordAt, Boot, HeaderOf, PutHeader;
      CanRead(c, Recovered(c, d0), s);
      RunNext(c, d0, run, s, LogMachine.ReadHead);
      LoadHead(disk[c.start]);
      cur := disk;
      s, run := Do(c, s, LogMachine.ReadHead), run + [LogMachine.ReadHead];
    }

    /** The block write_head puts on the disk. */
    method StoreHead(buf: Block) returns (hb: Block)
      requires block.Length == LOGSIZE && n <= LOGSIZE && forall i | 0 <= i < n :: block[i] < UINT
      ensures hb == PutHeader(buf, block[..n])
    {
      hide WordAt, SetWord;
      ghost var ws := HeaderWords(block[..n]);
      hb := SetWord(buf, 0, n);
      assert ws[..1] == [n] && ws[..1][..0] == [];
      assert hb == PutWords(buf, 0, ws[..1]);
      var i := 0;
      while i < n
        invariant 0 <= i <= n
        invariant hb == PutWords(buf, 0, ws[..1 + i])
      {
        hb := SetWord(hb, 1 + i, block[i]);
        assert ws[..2 + i][..1 + i] == ws[..1 + i];
        i := i + 1;
      }
      assert ws[..1 + n] == ws;
    }

    method WriteHead()
      requires c.Valid() && |disk| == c.blocks && block.Length == LOGSIZE && n <= LOGSIZE
      requires forall i | 0 <= i < n :: block[i] < UINT
      modifies this`disk
      ensures disk == old(disk)[c.start := PutHeader(old(disk[c.start]), block[..n])]
    {
      var hb := StoreHead(disk[c.start]);
      disk := disk[c.start := hb];
    }

    /** Nothing but the device, the cached blocks and the ghost run has moved, and the run by these labels. */
    twostate predicate Moved(l: Label)
      reads this
    {
      && old(run) <= run && (forall i | |old(run)| <= i < |run| :: run[i] == l)
      && s.lh == old(s.lh) && s.active == old(s.active) && s.group == old(s.group) && s.done == old(s.done)
      && s.sleepers == old(s.sleepers) && s.next == old(s.next)
    }

    method WriteLog()
      requires Agrees() && s.phase == Logging(0)
      modifies this`disk, this`run, this`s
      ensures Agrees() && s.phase == Logging(n) && Moved(LogBlock)
    {
      hide Inv, Recovered, Runs, HeaderOf, Enabled;
      var tail := 0;
      while tail < n
        invariant 0 <= tail <= n && Agrees() && s.phase == Logging(tail) && Moved(LogBlock)
      {
        assert Enabled(c, s, LogBlock) by { CanLog(c, s); }
        RunNext(c, d0, run, s, LogBlock);
        var to, from := c.start + tail + 1, block[tail];
        disk := disk[to := cur[from]];
        s, run := Do(c, s, LogBlock), run + [LogBlock];
        tail := tail + 1;
      }
    }

    method InstallTrans()
      requires Agrees() && s.phase.Installing? && s.phase.k == 0
      modifies this`disk, this`cur, this`run, this`s
      ensures Agrees() && s.phase == old(s.phase).(k := n) && Moved(InstallBlock)
    {
      hide Inv, Recovered, Runs, HeaderOf, Enabled;
      var tail := 0;
      while tail < n
        invariant 0 <= tail <= n && Agrees() && s.phase == old(s.phase).(k := tail) && Moved(InstallBlock)
      {
        InstallOne(tail);
        tail := tail + 1;
      }
    }

    /** One turn of install_trans. */
    method InstallOne(tail: nat)
      requires Agrees() && s.phase.Installing? && s.phase.k == tail < n
      modifies this`disk, this`cur, this`run, this`s
      ensures Agrees() && s.phase == old(s.phase).(k := tail + 1) && run == old(run) + [InstallBlock]
      ensures s.lh == old(s.lh) && s.active == old(s.active) && s.group == old(s.group) && s.done == old(s.done)
      ensures s.sleepers == old(s.sleepers) && s.next == old(s.next)
    {
      hide Inv, Recovered, Runs, HeaderOf, Enabled, PutHeader, Boot;
      assert Enabled(c, s, InstallBlock) by { CanInstall(c, s); }
      RunNext(c, d0, run, s, InstallBlock);
      var lbuf, dst := disk[c.start + tail + 1], block[tail];
      disk := disk[dst := lbuf];
      cur := cur[dst := lbuf];
      s, run := Do(c, s, InstallBlock), run + [InstallBlock];
    }

    method WriteCommit()
      requires Agrees() && s.phase == Logging(n) && n > 0
      modifies this`disk, this`run, this`s
      ensures Agrees() && run == old(run) + [LogMachine.WriteHead] && s.phase == Installing(0, false)
      ensures s.done == old(s.done) + [old(s.group)] && s.active == old(s.active) && s.sleepers == old(s.sleepers)
    {
      hide Recovered, Runs, HeaderOf, Inv, PutHeader;
      RunNext(c, d0, run, s, LogMachine.WriteHead);
      ShapeBounds(c, s);
      WriteHead();
      s, run := Do(c, s, LogMachine.WriteHead), run + [LogMachine.WriteHead];
    }

    /** log.lh.n = 0; write_head(), as commit and recover_from_log end. */
    method EraseLog()
      requires Agrees() && s.phase.Installing? && s.phase.k == n
      modifies this`n, this`disk, this`run, this`s
      ensures Agrees() && run == old(run) + [EraseHead] && s.phase == Finishing && n == 0
      ensures s.done == old(s.done) && s.active == old(s.active) && s.sleepers == old(s.sleepers)
    {
      hide Recovered, Runs, HeaderOf, Inv, PutHeader;
      RunNext(c, d0, run, s, EraseHead);
      n := 0;
      WriteHead();
      s, run := Do(c, s, EraseHead), run + [EraseHead];
    }

    /** commit(): afterwards the home blocks on the disk are what the operations saw, and the log is empty. */
    method Commit()
      requires Agrees() && s.phase == Logging(0)
      modifies this`n, this`disk, this`cur, this`run, this`s
      ensures Agrees() && s.phase == Finishing && n == 0 && HeaderOf(disk[c.start]) == []
      ensures SameHome(c, disk, old(cur)) && SameHome(c, cur, old(cur))
      ensures s.done == if old(n) > 0 then old(s.done) + [old(s.group)] else old(s.done)
      ensures old(run) <= run && Begin !in run[|old(run)|..] && s.sleepers == old(s.sleepers)
      ensures s.active == old(s.active)
    {
      hide Recovered, Runs, HeaderOf, Inv, PutHeader, Flatten, SameHome, Shape;
      ghost var s0 := s;
      if n > 0 {
        WriteLog();
        WriteCommit();
        InstallTrans();
        EraseLog();
      } else {
        RunNext(c, d0, run, s, NothingToCommit);
        s, run := Do(c, s, NothingToCommit), run + [NothingToCommit];
      }
      CommittedView(c, Recovered(c, d0), s0, s);
    }

    /** log.committing = 0; wakeup(&log) */
    method Release()
      requires Agrees() && s.phase == Finishing
      modifies this`committing, this`sleepers, this`run, this`s
      ensures Valid() && s.phase == Running && sleepers == 0 && run == old(run) + [Finish]
      ensures s.done == old(s.done) && s.active == old(s.active) && s.lh == old(s.lh)
    {
      hide Recovered, Runs, HeaderOf, Inv, Shape, Boot;
      RunNext(c, d0, run, s, Finish);
      committing := false;
      sleepers := 0;
      s, run := Do(c, s, Finish), run + [Finish];
    }

    /** recover_from_log(), called once by initlog when the machine starts. */
    method RecoverFromLog()
      requires Valid() && s.phase == Down
      modifies this`n, this`disk, this`cur, this`committing, this`sleepers, this`run, this`s, block
      ensures Valid() && s.phase == Running && n == 0 && HeaderOf(disk[c.start]) == []
      ensures SameHome(c, disk, Recovered(c, old(disk))) && SameHome(c, cur, disk)
      ensures s.done == old(s.done) && s.active == []
      ensures old(run) <= run && Begin !in run[|old(run)|..]
    {
      hide Recovered, Runs, HeaderOf, Inv, PutHeader, Flatten, SameHome, Shape, Do, Boot, GoodHeader;
      ghost var s0 := s;
      ReadHead();
      InstallTrans();
      EraseLog();
      ghost var s1 := s;
      Release();
      RecoveredView(c, Recovered(c, d0), s0, s1);
    }

    /** One turn of the loop in begin_op: take a reservation, or sleep on &log. Other processes
        may come here at any point of a commit. */
    method BeginOp() returns (ok: bool)
      requires Agrees() && committing == (s.phase != Running) && s.phase != Down && s.phase != Overrun
      requires s.phase.Installing? ==> !s.phase.recovering
      modifies this`outstanding, this`sleepers, this`run, this`s
      ensures Agrees() && s.phase == old(s.phase) && s.lh == old(s.lh)
      ensures ok <==> !committing && n + (old(outstanding) + 1) * MAXOPBLOCKS <= LOGSIZE
      ensures outstanding == old(outstanding) + (if ok then 1 else 0)
      ensures sleepers == old(sleepers) + (if ok then 0 else 1)
      ensures run == old(run) + [if ok then Begin else BeginSleep]
    {
      hide Recovered, Runs, HeaderOf, Inv;
      ok := !committing && n + (outstanding + 1) * MAXOPBLOCKS <= LOGSIZE;
      ghost var l := if ok then Begin else BeginSleep;
      RunNext(c, d0, run, s, l);
      if ok {
        outstanding := outstanding + 1;
      } else {
        sleepers := sleepers + 1;
      }
      s, run := Do(c, s, l), run + [l];
    }

    /** The second half of end_op: commit, then let the sleepers in. */
    method CommitForAll()
      requires Agrees() && s.phase == Logging(0) && s.active == [] && committing
      modifies this`n, this`disk, this`cur, this`committing, this`sleepers, this`run, this`s
      ensures Valid() && s.phase == Running && sleepers == 0 && s.active == []
      ensures n == 0 && HeaderOf(disk[c.start]) == [] && SameHome(c, disk, old(cur)) && SameHome(c, cur, old(cur))
      ensures s.done == if old(n) > 0 then old(s.done) + [old(s.group)] else old(s.done)
      ensures old(run) <= run
    {
      hide Recovered, Runs, HeaderOf, Inv, SameHome, Shape, Boot, Do;
      Commit();
      Release();
    }

    /** end_op() of the i-th active operation; the last one commits for all. */
    method EndOp(ghost i: nat)
      requires Valid() && s.phase == Running && i < |s.active| && !s.active[i].checked
      modifies this`n, this`disk, this`cur, this`outstanding, this`committing, this`sleepers, this`run, this`s
      ensures Valid() && s.phase == Running && sleepers == 0 && outstanding == old(outstanding) - 1
      ensures old(outstanding) > 1 ==> disk == old(disk) && cur == old(cur) && n == old(n) && s.done == old(s.done)
      ensures old(outstanding) == 1 ==>
                && n == 0 && HeaderOf(disk[c.start]) == [] && SameHome(c, disk, old(cur)) && SameHome(c, cur, old(cur))
                && s.done == if old(n) > 0 then old(s.done) + [old(s.group)] else old(s.done)
      ensures old(run) <= run
    {
      hide Recovered, Runs, HeaderOf, Inv, SameHome, Shape, Boot;
      RunNext(c, d0, run, s, End(i));
      outstanding := outstanding - 1;
      s, run := Do(c, s, End(i)), run + [End(i)];
      if outstanding == 0 {
        committing := true;
        CommitForAll();
      } else {
        sleepers := 0;
      }
    }

    /** The search of log_write: a block already in the log is absorbed. */
    method Absorb(b: nat)
      requires block.Length == LOGSIZE && (n < LOGSIZE || (n == LOGSIZE && b in block[..n]))
      modifies this`n, block
      ensures n <= LOGSIZE && block[..n] == if b in old(block[..n]) then old(block[..n]) else old(block[..n]) + [b]
    {
      ghost var lh := block[..n];
      var k := 0;
      while k < n && block[k] != b
        invariant 0 <= k <= n && forall j | 0 <= j < k :: lh[j] != b
      {
        k := k + 1;
      }
      assert k < n ==> lh[k] == b;
      block[k] := b;
      if k == n { n := n + 1; }
    }

    /** The guards of log_write(), read before log.lock is taken; false stands for a panic. Other processes may come
        here between this and the recording. */
    method Guard(ghost i: nat) returns (ok: bool)
      requires Valid() && s.phase == Running && (outstanding >= 1 ==> i < |s.active| && !s.active[i].checked)
      modifies this`run, this`s
      ensures Valid() && s.phase == Running && s.lh == old(s.lh) && |s.active| == |old(s.active)|
      ensures ok <==> !(n >= LOGSIZE || n >= c.size - 1) && outstanding >= 1
      ensures ok ==> run == old(run) + [Check(i)] && i < |s.active| && s.active[i].checked
      ensures !ok ==> run == old(run) && s == old(s)
    {
      hide Recovered, Runs, HeaderOf, Inv, Boot, Do, Enabled, Shape, GoodHeader;
      ok := !(n >= LOGSIZE || n >= c.size - 1) && outstanding >= 1;
      if ok {
        CanCheck(c, s, i);
        RunNext(c, d0, run, s, Check(i));
        s, run := Do(c, s, Check(i)), run + [Check(i)];
      }
    }

    /** log_write() under log.lock. It does not look again whether there is room; within budget and on a log of
        LOGSIZE + 1 blocks there is (NoOverrun in LogOps). */
    method Record(ghost i: nat, b: nat, data: Block)
      requires Valid() && s.phase == Running && i < |s.active| && s.active[i].checked && c.Home(b) && Room(c, s, b)
      modifies this`n, this`cur, this`run, this`s, block
      ensures Valid() && s.phase == Running
      ensures block[..n] == if b in old(block[..n]) then old(block[..n]) else old(block[..n]) + [b]
      ensures cur == old(cur)[b := data] && run == old(run) + [LogWrite(i, b, data)]
      ensures s.lh == if b in old(s.lh) then old(s.lh) else old(s.lh) + [b]
    {
      hide Recovered, Runs, HeaderOf, Inv, Boot, Do, Enabled, Shape, GoodHeader;
      CanWrite(c, s, i, b, data);
      RunNext(c, d0, run, s, LogWrite(i, b, data));
      Absorb(b);
      cur := cur[b := data];
      s, run := Do(c, s, LogWrite(i, b, data)), run + [LogWrite(i, b, data)];
    }

    /** log_write() of block b with contents data, by the i-th active operation, when nobody comes between; false
        stands for a panic. */
    method LogWriteBlock(ghost i: nat, b: nat, data: Block) returns (ok: bool)
      requires Valid() && s.phase == Running && c.Home(b)
      requires outstanding >= 1 ==> i < |s.active| && !s.active[i].checked
      modifies this`n, this`cur, this`run, this`s, block
      ensures Valid() && s.phase == Running
      ensures ok <==> !(old(n) >= LOGSIZE || old(n) >= c.size - 1) && outstanding >= 1
      ensures ok ==> cur == old(cur)[b := data] && run == old(run) + [Check(i), LogWrite(i, b, data)]
      ensures ok ==> block[..n] == if b in old(block[..n]) then old(block[..n]) else old(block[..n]) + [b]
      ensures !ok ==> cur == old(cur) && n == old(n) && block[..n] == old(block[..n]) && run == old(run)
    {
      hide Recovered, Runs, HeaderOf, Inv, Boot, Do, Enabled, Shape, GoodHeader;
      ok := Guard(i);
      if ok {
        Record(i, b, data);
      }
    }
  }

  lemma RecoveredView(c: Config, base0: seq<Block>, s: State, t: State)
    requires Shape(c, s) && Inv(c, base0, s) && s.phase == Down
    requires Shape(c, t) && Inv(c, base0, t) && t.phase == Finishing && t.done == s.done
    ensures s.active == [] && GoodHeader(c, HeaderOf(s.disk[c.start])) && HeaderOf(t.disk[c.start]) == []
    ensures SameHome(c, t.disk, Recovered(c, s.disk)) && SameHome(c, t.cur, t.disk)
  {
    CleanDisk(c, t.disk, Base(base0, t));
    RecoverableMeans(c, s.disk, Base(base0, s));
  }

  lemma CanRead(c: Config, base0: seq<Block>, s: State)
    requires Shape(c, s) && Inv(c, base0, s) && s.phase == Down
    ensures Enabled(c, s, ReadHead) && WordAt(s.disk[c.start], 0) <= LOGSIZE
  {
    hide WordAt;
  }

  lemma ShapeBounds(c: Config, s: State)
    requires Shape(c, s)
    ensures forall i | 0 <= i < |s.lh| :: s.lh[i] < UINT
  {
  }

  /** Between the first and the last step of a commit the disk catches up with the cache. */
  lemma CommittedView(c: Config, base0: seq<Block>, s: State, t: State)
    requires Shape(c, s) && Inv(c, base0, s) && s.phase.Logging?
    requires Shape(c, t) && Inv(c, base0, t) && t.phase == Finishing
    requires t.done == if s.lh != [] then s.done + [s.group] else s.done
    ensures SameHome(c, t.disk, s.cur) && SameHome(c, t.cur, s.cur) && HeaderOf(t.disk[c.start]) == []
  {
    hide HeaderOf;
    CleanDisk(c, t.disk, Base(base0, t));
    if s.lh != [] {
      FlattenSnoc(s.done, s.group);
      ApplyConcat(base0, Flatten(s.done), s.group);
    } else {
      assert s.group == [];
      assert Apply(Base(base0, s), []) == Base(base0, s);
    }
  }

  lemma CanLog(c: Config, s: State)
    requires Shape(c, s) && s.phase.Logging? && s.phase.k < |s.lh|
    ensures Enabled(c, s, LogBlock)
  {
  }

  lemma CanCheck(c: Config, s: State, i: nat)
    requires Shape(c, s) && s.phase == Running && i < |s.active| && !s.active[i].checked && !TooBig(c, s)
    ensures Enabled(c, s, Check(i))
    ensures var t := Do(c, s, Check(i));
            && t.phase == Running && t.cur == s.cur && t.disk == s.disk && t.sleepers == s.sleepers && t.lh == s.lh
            && |t.active| == |s.active| && t.active[i].checked
  {
  }

  lemma CanWrite(c: Config, s: State, i: nat, b: nat, data: Block)
    requires Shape(c, s) && s.phase == Running && i < |s.active| && s.active[i].checked && c.Home(b) && Room(c, s, b)
    ensures |s.cur| == c.blocks && Enabled(c, s, LogWrite(i, b, data))
    ensures var t := Do(c, s, LogWrite(i, b, data));
            && t.phase == Running && t.cur == s.cur[b := data] && t.disk == s.disk && t.sleepers == s.sleepers
            && t.lh == (if b in s.lh then s.lh else s.lh + [b]) && |t.active| == |s.active|
  {
  }

  lemma CanInstall(c: Config, s: State)
    requires Shape(c, s) && s.phase.Installing? && s.phase.k < |s.lh|
    ensures Enabled(c, s, InstallBlock)
  {
  }
}
