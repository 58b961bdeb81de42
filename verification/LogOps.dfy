/** Operations of the log machine: all-or-nothing, log space, and sleepers in begin_op. */
module LogOps {
  import opened Blocks
  import opened LogMachine
  import opened LogSafety

  // ---------- every operation is all or nothing ----------

  /** Operations numbered from `epoch` on belong to the open group, earlier ones to closed groups. */
  ghost predicate Open(s: State) {
    && s.epoch <= s.next
    && (s.phase != Running && s.phase != Overrun ==> s.active == [])
    && (forall i | 0 <= i < |s.active| :: s.epoch <= s.active[i].id < s.next)
    && (forall w | w in s.group :: s.epoch <= w.op < s.next)
    && (forall w | w in s.issued :: w.op < s.next)
  }

  ghost predicate Closed(done: seq<seq<Write>>, epoch: nat) {
    && (forall w | w in Flatten(done) :: w.op < epoch)
    && (forall i, w | 0 <= i < |done| && w in done[i] :: w.op < epoch)
    && (forall i, j, v, w | 0 <= i < j < |done| && v in done[i] && w in done[j] :: v.op < w.op)
  }

  ghost predicate Ordered(s: State) {
    Open(s) && Closed(s.done, s.epoch)
  }

  /** Of operation id, before `epoch` all writes are committed or none; after it, all are in the open group. */
  ghost predicate History(s: State, id: nat) {
    && (id >= s.epoch ==> Of(id, s.issued) == Of(id, s.group))
    && (id < s.epoch ==> Of(id, Flatten(s.done)) == [] || Of(id, Flatten(s.done)) == Of(id, s.issued))
  }

  lemma OpenStep(c: Config, s: State, l: Label)
    requires Shape(c, s) && Enabled(c, s, l) && Open(s)
    ensures Open(Do(c, s, l))
  {
    hide HeaderOf, PutHeader, Shape;
  }

  lemma CloseGroup(done: seq<seq<Write>>, epoch: nat, group: seq<Write>, next: nat)
    requires Closed(done, epoch) && epoch <= next && forall w | w in group :: epoch <= w.op < next
    ensures Closed(done + [group], next)
  {
    hide Flatten;
    FlattenSnoc(done, group);
    var t := done + [group];
    forall i, j, v: Write, w: Write | 0 <= i < j < |t| && v in t[i] && w in t[j] ensures v.op < w.op {
      assert v in done[i];
      if j < |done| { assert w in done[j]; }
    }
  }

  lemma OrderedStep(c: Config, s: State, l: Label)
    requires Shape(c, s) && Enabled(c, s, l) && Ordered(s)
    ensures Ordered(Do(c, s, l))
  {
    OpenStep(c, s, l);
    hide HeaderOf, PutHeader, Shape, Flatten;
    if l == WriteHead {
      CloseGroup(s.done, s.epoch, s.group, s.next);
    }
  }

  lemma HistoryWrite(c: Config, s: State, l: Label, id: nat)
    requires Shape(c, s) && Enabled(c, s, l) && Ordered(s) && History(s, id) && l.LogWrite?
    ensures History(Do(c, s, l), id)
  {
    hide HeaderOf, PutHeader, Shape, Flatten, Of, Closed;
    var w := Write(s.active[l.i].id, l.b, l.data);
    OfSnoc(id, s.issued, w);
    OfSnoc(id, s.group, w);
  }

  lemma HistoryStep(c: Config, s: State, l: Label, id: nat)
    requires Shape(c, s) && Enabled(c, s, l) && Ordered(s) && History(s, id)
    ensures History(Do(c, s, l), id)
  {
    hide HeaderOf, PutHeader, Shape, Flatten, Of;
    if l.LogWrite? {
      HistoryWrite(c, s, l, id);
    } else if l == WriteHead {
      FlattenSnoc(s.done, s.group);
      OfConcat(id, Flatten(s.done), s.group);
    }
  }

  lemma OfSnoc(id: nat, ws: seq<Write>, w: Write)
    ensures Of(id, ws + [w]) == if w.op == id then Of(id, ws) + [w] else Of(id, ws)
  {
    assert (ws + [w])[..|ws + [w]| - 1] == ws;
  }

  lemma {:induction false} HistoryRun(c: Config, s: State, ls: seq<Label>, t: State, id: nat)
    requires Shape(c, s) && Runs(c, s, ls, t) && History(s, id) && Ordered(s)
    ensures History(t, id) && Ordered(t)
    decreases |ls|
  {
    hide Shape, Enabled, Do, History, Ordered;
    if ls != [] {
      HistoryStep(c, s, ls[0], id);
      OrderedStep(c, s, ls[0]);
      HistoryRun(c, Do(c, s, ls[0]), ls[1..], t, id);
    }
  }

  /** Main result. In every run, of all the writes an operation ever issued either none is in a committed
      group or all are, in order and in one group only. With CrashSafety: operations are atomic across crashes. */
  lemma OperationsAreAtomic(c: Config, d: seq<Block>, ls: seq<Label>, s: State, id: nat)
    requires c.Valid() && |d| == c.blocks && Runs(c, Boot(c, d), ls, s)
    ensures Of(id, Flatten(s.done)) == [] || Of(id, Flatten(s.done)) == Of(id, s.issued)
    ensures forall i, j, v, w | 0 <= i < |s.done| && 0 <= j < |s.done| && v in s.done[i] && w in s.done[j]
      && v.op == w.op :: i == j
    ensures forall i | 0 <= i < |s.active| :: Of(s.active[i].id, Flatten(s.done)) == []
  {
    hide Runs;
    assert Flatten([]) == [] && Of(id, []) == [];
    HistoryRun(c, Boot(c, d), ls, s, id);
  }

  // ---------- log space ----------

  /** The operation logs a block already in the log, or has logged fewer than MAXOPBLOCKS new ones. */
  predicate InBudget(s: State, l: Label) {
    l.LogWrite? ==> l.b in s.lh || (l.i < |s.active| && s.active[l.i].used < MAXOPBLOCKS)
  }

  predicate Budgeted(c: Config, s: State, ls: seq<Label>)
    requires Shape(c, s)
    decreases |ls|
  {
    ls == [] || (InBudget(s, ls[0]) && Enabled(c, s, ls[0]) && Budgeted(c, Do(c, s, ls[0]), ls[1..]))
  }

  function Slack(ops: seq<Op>): int
    decreases |ops|
  {
    if ops == [] then 0 else Slack(ops[..|ops| - 1]) + MAXOPBLOCKS - ops[|ops| - 1].used
  }

  lemma {:induction false} SlackBounds(ops: seq<Op>)
    requires forall i | 0 <= i < |ops| :: ops[i].used <= MAXOPBLOCKS
    ensures 0 <= Slack(ops) <= |ops| * MAXOPBLOCKS
    ensures forall i | 0 <= i < |ops| :: MAXOPBLOCKS - ops[i].used <= Slack(ops)
    decreases |ops|
  {
    if ops != [] {
      var front := ops[..|ops| - 1];
      SlackBounds(front);
      assert forall i | 0 <= i < |front| :: front[i] == ops[i];
    }
  }

  lemma {:induction false} SlackConcat(a: seq<Op>, b: seq<Op>)
    ensures Slack(a + b) == Slack(a) + Slack(b)
    decreases |b|
  {
    if b == [] {
      assert a + b == a;
    } else {
      assert (a + b)[..|a + b| - 1] == a + b[..|b| - 1];
      SlackConcat(a, b[..|b| - 1]);
    }
  }

  lemma SlackAt(ops: seq<Op>, i: nat)
    requires i < |ops|
    ensures Slack(ops) == Slack(ops[..i]) + MAXOPBLOCKS - ops[i].used + Slack(ops[i + 1..])
  {
    assert ops == ops[..i + 1] + ops[i + 1..];
    SlackConcat(ops[..i + 1], ops[i + 1..]);
    assert ops[..i + 1][..i] == ops[..i];
  }

  lemma SlackSet(ops: seq<Op>, i: nat, x: Op)
    requires i < |ops|
    ensures Slack(ops[i := x]) == Slack(ops) + ops[i].used - x.used
  {
    SlackAt(ops, i);
    SlackAt(ops[i := x], i);
    assert ops[i := x][..i] == ops[..i] && ops[i := x][i + 1..] == ops[i + 1..];
  }

  /** The logged blocks and the unused reservations of the active operations fit in the log. */
  ghost predicate Space(s: State) {
    && (forall i | 0 <= i < |s.active| :: s.active[i].used <= MAXOPBLOCKS)
    && |s.lh| + Slack(s.active) <= LOGSIZE
    && (s.phase == Down ==> s.active == [])
  }

  lemma SpaceWrite(c: Config, s: State, i: nat, b: nat, data: Block)
    requires Shape(c, s) && Enabled(c, s, LogWrite(i, b, data)) && InBudget(s, LogWrite(i, b, data)) && Space(s)
    ensures Space(Do(c, s, LogWrite(i, b, data)))
  {
    hide Slack, Shape, HeaderOf, PutHeader;
    SlackSet(s.active, i, Do(c, s, LogWrite(i, b, data)).active[i]);
  }

  lemma SpaceStep(c: Config, s: State, l: Label)
    requires Shape(c, s) && Enabled(c, s, l) && InBudget(s, l) && Space(s)
    ensures Space(Do(c, s, l))
  {
    hide HeaderOf, PutHeader, Slack, Shape;
    var t := Do(c, s, l);
    assert Slack([]) == 0 by { SlackBounds([]); }
    match l
    case Begin =>
      SlackBounds(s.active);
      SlackAt(t.active, |s.active|);
      assert t.active[..|s.active|] == s.active && t.active[|s.active| + 1..] == [];
    case Check(i) => SlackSet(s.active, i, t.active[i]);
    case LogWrite(i, b, data) => SpaceWrite(c, s, i, b, data);
    case End(i) =>
      SlackAt(s.active, i);
      SlackConcat(s.active[..i], s.active[i + 1..]);
      SlackBounds(s.active);
    case ReadHead => assert GoodHeader(c, t.lh);
    case _ =>
  }

  lemma {:induction false} SpaceRun(c: Config, s: State, ls: seq<Label>, t: State)
    requires Shape(c, s) && Runs(c, s, ls, t) && Budgeted(c, s, ls) && Space(s)
    ensures Space(t)
    decreases |ls|
  {
    hide Shape, Enabled, Do, Space;
    if ls != [] {
      SpaceStep(c, s, ls[0]);
      SpaceRun(c, Do(c, s, ls[0]), ls[1..], t);
    }
  }

  /** If every operation logs at most MAXOPBLOCKS new blocks, the log never fills while one of them still has a
      block to log; and when the guard of log_write fires on a log of LOGSIZE+1 blocks, every budget is spent. */
  lemma SpaceSafety(c: Config, d: seq<Block>, ls: seq<Label>, s: State)
    requires c.Valid() && |d| == c.blocks && Runs(c, Boot(c, d), ls, s) && Budgeted(c, Boot(c, d), ls)
    ensures |s.lh| + Slack(s.active) <= LOGSIZE && Distinct(s.lh)
    ensures forall i | 0 <= i < |s.active| && s.active[i].used < MAXOPBLOCKS :: |s.lh| < LOGSIZE
    ensures c.size >= LOGSIZE + 1 && TooBig(c, s) ==> forall i | 0 <= i < |s.active| :: s.active[i].used == MAXOPBLOCKS
  {
    hide Runs, Budgeted;
    assert Slack([]) == 0;
    SpaceRun(c, Boot(c, d), ls, s);
    SlackBounds(s.active);
    RunShape(c, Boot(c, d), ls, s);
  }

  lemma {:induction false} RunShape(c: Config, s: State, ls: seq<Label>, t: State)
    requires Shape(c, s) && Runs(c, s, ls, t)
    ensures Shape(c, t)
    decreases |ls|
  {
    hide Shape, Enabled, Do;
    if ls != [] {
      RunShape(c, Do(c, s, ls[0]), ls[1..], t);
    }
  }

  /** An operation within its budget logs a block for the first time, and log_write panics. */
  ghost predicate PanicsInBudget(c: Config, s: State) {
    && s.phase == Running && TooBig(c, s)
    && exists i, b: nat :: 0 <= i < |s.active| && s.active[i].used < MAXOPBLOCKS && c.Home(b) && b !in s.lh
  }

  ghost predicate SizePanicReachable(c: Config)
    requires c.Valid()
  {
    exists d: seq<Block>, ls, s ::
      |d| == c.blocks && Runs(c, Boot(c, d), ls, s) && Budgeted(c, Boot(c, d), ls) && PanicsInBudget(c, s)
  }

  /** The k-th block outside the log. */
  function HomeBlock(c: Config, k: nat): nat {
    if k < c.start then k else k + c.size
  }

  function Used(n: nat, i: nat): nat
    requires i < 3
  {
    (n + 2 - i) / 3
  }

  /** Three operations have begun and have logged the first n home blocks, taking turns. */
  ghost predicate Filled(c: Config, s: State, n: nat) {
    && s.phase == Running && |s.active| == 3 && |s.lh| == n
    && (forall i | 0 <= i < 3 :: s.active[i].used == Used(n, i) && !s.active[i].checked)
    && (forall k | 0 <= k < n :: s.lh[k] == HomeBlock(c, k))
  }

  lemma {:induction false} BudgetedConcat(c: Config, s: State, ls: seq<Label>, t: State, ms: seq<Label>)
    requires Shape(c, s) && Runs(c, s, ls, t) && Budgeted(c, s, ls)
    requires Shape(c, t) && Budgeted(c, t, ms)
    ensures Budgeted(c, s, ls + ms)
    decreases |ls|
  {
    hide Shape, Enabled, Do, InBudget;
    if ls == [] {
      assert ls + ms == ms;
    } else {
      BudgetedConcat(c, Do(c, s, ls[0]), ls[1..], t, ms);
      assert (ls + ms)[1..] == ls[1..] + ms;
    }
  }

  lemma Extend(c: Config, s: State, ls: seq<Label>, t: State, l: Label) returns (ms: seq<Label>)
    requires Shape(c, s) && Runs(c, s, ls, t) && Budgeted(c, s, ls) && Shape(c, t) && Enabled(c, t, l) && InBudget(t, l)
    ensures ms == ls + [l] && Runs(c, s, ms, Do(c, t, l)) && Budgeted(c, s, ms)
  {
    hide Shape, Enabled, Do, InBudget;
    ms := ls + [l];
    var u := Do(c, t, l);
    assert Runs(c, u, [], u) && Budgeted(c, u, []);
    assert [l][1..] == [];
    assert Runs(c, t, [l], u) && Budgeted(c, t, [l]);
    RunsConcat(c, s, ls, t, [l], u);
    BudgetedConcat(c, s, ls, t, [l]);
  }

  lemma ZeroHeader()
    ensures HeaderOf(Zeroed()) == []
  {
  }

  /** The log recovered, and idle. */
  lemma StartNone(c: Config) returns (d: seq<Block>, ls: seq<Label>, s: State)
    requires c.Valid()
    ensures d == seq(c.blocks, _ => Zeroed()) && Shape(c, s)
    ensures Runs(c, Boot(c, d), ls, s) && Budgeted(c, Boot(c, d), ls)
    ensures s.phase == Running && s.lh == [] && s.active == []
  {
    hide HeaderOf, PutHeader, Runs, Budgeted;
    d := seq(c.blocks, _ => Zeroed());
    ZeroHeader();
    var s0 := Boot(c, d);
    ls, s := [], s0;
    assert Runs(c, s0, [], s0) && Budgeted(c, s0, []) by { RunsNil(c, s0); }
    ls := Extend(c, s0, ls, s, ReadHead);
    s := Do(c, s, ReadHead);
    ls := Extend(c, s0, ls, s, EraseHead);
    s := Do(c, s, EraseHead);
    ls := Extend(c, s0, ls, s, Finish);
    s := Do(c, s, Finish);
  }

  lemma StartThree(c: Config) returns (d: seq<Block>, ls: seq<Label>, s: State)
    requires c.Valid()
    ensures d == seq(c.blocks, _ => Zeroed()) && Shape(c, s)
    ensures Runs(c, Boot(c, d), ls, s) && Budgeted(c, Boot(c, d), ls)
    ensures Filled(c, s, 0)
  {
    hide HeaderOf, PutHeader, Runs, Budgeted;
    d, ls, s := StartNone(c);
    var s0 := Boot(c, d);
    ls := Extend(c, s0, ls, s, Begin);
    s := Do(c, s, Begin);
    ls := Extend(c, s0, ls, s, Begin);
    s := Do(c, s, Begin);
    ls := Extend(c, s0, ls, s, Begin);
    s := Do(c, s, Begin);
  }

  lemma RunsNil(c: Config, s: State)
    requires Shape(c, s)
    ensures Runs(c, s, [], s) && Budgeted(c, s, [])
  {
  }

  lemma {:induction false} Fill(c: Config, n: nat) returns (d: seq<Block>, ls: seq<Label>, s: State)
    requires c.Valid() && n <= LOGSIZE && n <= c.size - 1 && c.blocks >= c.size + LOGSIZE
    ensures d == seq(c.blocks, _ => Zeroed()) && Shape(c, s)
    ensures Runs(c, Boot(c, d), ls, s) && Budgeted(c, Boot(c, d), ls)
    ensures Filled(c, s, n)
  {
    hide Runs, Budgeted, Do, Enabled, InBudget, Filled, Shape, HomeBlock;
    if n == 0 {
      d, ls, s := StartThree(c);
    } else {
      d, ls, s := Fill(c, n - 1);
      var i, b := (n - 1) % 3, HomeBlock(c, n - 1);
      FillOne(c, s, n - 1);
      ls := Extend(c, Boot(c, d), ls, s, Check(i));
      s := Do(c, s, Check(i));
      ls := Extend(c, Boot(c, d), ls, s, LogWrite(i, b, Zeroed()));
      s := Do(c, s, LogWrite(i, b, Zeroed()));
    }
  }

  lemma FillOne(c: Config, s: State, n: nat)
    requires Shape(c, s) && Filled(c, s, n) && n < LOGSIZE && n + 1 < c.size && c.blocks >= c.size + LOGSIZE
    ensures Enabled(c, s, Check(n % 3)) && InBudget(s, Check(n % 3))
    ensures var u, l := Do(c, s, Check(n % 3)), LogWrite(n % 3, HomeBlock(c, n), Zeroed());
            Enabled(c, u, l) && InBudget(u, l) && Filled(c, Do(c, u, l), n + 1)
  {
    hide HeaderOf, PutHeader;
    var u := Do(c, s, Check(n % 3));
    assert HomeBlock(c, n) !in u.lh && Room(c, u, HomeBlock(c, n));
  }

  /** Exactly when the size check can stop an operation that keeps its budget: log.size < LOGSIZE + 1.
      mkfs sets the size to LOGSIZE, so there it can. */
  lemma SizePanicIff(c: Config)
    requires c.Valid() && c.blocks >= c.size + LOGSIZE
    ensures SizePanicReachable(c) <==> c.size < LOGSIZE + 1
  {
    hide Runs, Budgeted, Shape;
    if c.size < LOGSIZE + 1 {
      var d, ls, s := Fill(c, c.size - 1);
      var i, b := (c.size - 1) % 3, HomeBlock(c, c.size - 1);
      assert 0 <= i < |s.active| && s.active[i].used < MAXOPBLOCKS && c.Home(b) && b !in s.lh;
      assert PanicsInBudget(c, s);
    } else if SizePanicReachable(c) {
      var d: seq<Block>, ls, s :| |d| == c.blocks && Runs(c, Boot(c, d), ls, s) && Budgeted(c, Boot(c, d), ls)
        && PanicsInBudget(c, s);
      SpaceSafety(c, d, ls, s);
    }
  }

  /** The guard also fires on a block that is already in the log, once LOGSIZE blocks are:
      an operation that has spent its budget cannot even log one of its own blocks again. */
  lemma RewritePanicReachable(c: Config) returns (d: seq<Block>, ls: seq<Label>, s: State, b: nat)
    requires c.Valid() && c.size >= LOGSIZE + 1 && c.blocks >= c.size + LOGSIZE
    ensures |d| == c.blocks && Runs(c, Boot(c, d), ls, s) && Budgeted(c, Boot(c, d), ls)
    ensures s.phase == Running && |s.active| > 0 && b in s.lh && TooBig(c, s)
  {
    hide Runs, Budgeted, Shape;
    d, ls, s := Fill(c, LOGSIZE);
    b := s.lh[0];
  }

  // ---------- two calls of log_write past the guard at once ----------

  lemma RoomStep(c: Config, s: State, l: Label)
    requires Shape(c, s) && Enabled(c, s, l) && InBudget(s, l) && Space(s) && s.phase != Overrun
    requires c.size >= LOGSIZE + 1
    ensures Do(c, s, l).phase != Overrun
  {
    if l.LogWrite? { SlackBounds(s.active); }
    hide HeaderOf, PutHeader, Slack;
  }

  lemma {:induction false} RoomRun(c: Config, s: State, ls: seq<Label>, t: State)
    requires Shape(c, s) && Runs(c, s, ls, t) && Budgeted(c, s, ls) && Space(s) && c.size >= LOGSIZE + 1
    requires s.phase != Overrun
    ensures t.phase != Overrun
    decreases |ls|
  {
    hide Shape, Enabled, Do, Space;
    if ls != [] {
      RoomStep(c, s, ls[0]);
      SpaceStep(c, s, ls[0]);
      RoomRun(c, Do(c, s, ls[0]), ls[1..], t);
    }
  }

  /** With a log of LOGSIZE + 1 blocks, calls of log_write that pass the guard side by side never overrun it, as long as
      each operation keeps its budget: every block recorded has its room. */
  lemma NoOverrun(c: Config, d: seq<Block>, ls: seq<Label>, s: State)
    requires c.Valid() && |d| == c.blocks && Runs(c, Boot(c, d), ls, s) && Budgeted(c, Boot(c, d), ls)
    requires c.size >= LOGSIZE + 1
    ensures s.phase != Overrun && !(s.phase == Running && exists i :: OverrunBy(c, s, i))
  {
    hide Runs, Budgeted, Slack;
    assert Slack([]) == 0 by { SlackBounds([]); }
    RoomRun(c, Boot(c, d), ls, s);
    SpaceRun(c, Boot(c, d), ls, s);
    SlackBounds(s.active);
  }

  /** Operation i is past the guard, within its budget, and about to record a block there is no room for. */
  ghost predicate OverrunBy(c: Config, s: State, i: nat) {
    i < |s.active| && s.active[i].checked && s.active[i].used < MAXOPBLOCKS && exists b: nat ::
      c.Home(b) && !Room(c, s, b)
  }

  ghost predicate OverrunReachable(c: Config)
    requires c.Valid()
  {
    exists d: seq<Block>, ls, s, i ::
      |d| == c.blocks && Runs(c, Boot(c, d), ls, s) && Budgeted(c, Boot(c, d), ls) && s.phase == Running
        && OverrunBy(c, s, i)
  }

  lemma {:induction false} NeverChecked(c: Config, s: State, ls: seq<Label>, t: State)
    requires Shape(c, s) && Runs(c, s, ls, t) && c.size == 1 && forall i | 0 <= i < |s.active| :: !s.active[i].checked
    ensures forall i | 0 <= i < |t.active| :: !t.active[i].checked
    decreases |ls|
  {
    if ls != [] {
      hide HeaderOf, PutHeader;
      NeverChecked(c, Do(c, s, ls[0]), ls[1..], t);
    }
  }

  /** A log of c.size blocks with room for one more block, and two operations past the guard, one of which takes it. */
  lemma TwoPastGuard(c: Config) returns (d: seq<Block>, ls: seq<Label>, s: State, i: nat)
    requires c.Valid() && c.blocks >= c.size + LOGSIZE && 2 <= c.size < LOGSIZE + 1
    ensures d == seq(c.blocks, _ => Zeroed()) && Runs(c, Boot(c, d), ls, s) && Budgeted(c, Boot(c, d), ls)
    ensures Shape(c, s)
    ensures s.phase == Running && |s.lh| + 1 == c.size && OverrunBy(c, s, i)
    ensures c.Home(HomeBlock(c, |s.lh|)) && HomeBlock(c, |s.lh|) !in s.lh
  {
    hide HeaderOf, PutHeader, Runs, Budgeted;
    var n := c.size - 2;
    d, ls, s := Fill(c, n);
    var h, b := n % 3, HomeBlock(c, n);
    i := (n + 1) % 3;
    ls := Extend(c, Boot(c, d), ls, s, Check(h));
    s := Do(c, s, Check(h));
    ls := Extend(c, Boot(c, d), ls, s, Check(i));
    s := Do(c, s, Check(i));
    assert b !in s.lh && Room(c, s, b);
    ls := Extend(c, Boot(c, d), ls, s, LogWrite(h, b, Zeroed()));
    s := Do(c, s, LogWrite(h, b, Zeroed()));
    assert HomeBlock(c, n + 1) !in s.lh && !Room(c, s, HomeBlock(c, n + 1));
  }

  /** Exactly when operations within their budgets can overrun the log: on a log that admits a block at all and has
      fewer than LOGSIZE + 1. mkfs makes such a log. */
  lemma OverrunIff(c: Config)
    requires c.Valid() && c.blocks >= c.size + LOGSIZE
    ensures OverrunReachable(c) <==> 2 <= c.size < LOGSIZE + 1
  {
    hide Runs, Budgeted, Shape, OverrunBy;
    if 2 <= c.size < LOGSIZE + 1 {
      var d, ls, s, i := TwoPastGuard(c);
    } else if OverrunReachable(c) {
      var d: seq<Block>, ls, s, i :| |d| == c.blocks && Runs(c, Boot(c, d), ls, s) && Budgeted(c, Boot(c, d), ls)
        && s.phase == Running && OverrunBy(c, s, i);
      if c.size == 1 {
        NeverChecked(c, Boot(c, d), ls, s);
        CheckedBy(c, s, i);
      } else {
        NoOverrun(c, d, ls, s);
      }
    }
  }

  lemma CheckedBy(c: Config, s: State, i: nat)
    requires OverrunBy(c, s, i)
    ensures i < |s.active| && s.active[i].checked
  {
  }

  /** The disk after k turns of write_log's loop, whatever the length of the list. */
  function LogWritten(c: Config, d: seq<Block>, cur: seq<Block>, lh: seq<nat>, k: nat): (r: seq<Block>)
    requires c.start + k < |d| == |cur| && k <= |lh| && forall i | 0 <= i < |lh| :: lh[i] < |cur|
    ensures |r| == |d| && forall b | 0 <= b < |d| && !(c.start < b <= c.start + k) :: r[b] == d[b]
  {
    if k == 0 then d else LogWritten(c, d, cur, lh, k - 1)[c.start + k := cur[lh[k - 1]]]
  }

  lemma NothingInstalled(c: Config, d: seq<Block>)
    requires c.Valid() && |d| == c.blocks && HeaderOf(d[c.start]) == []
    ensures forall b: nat | c.Home(b) :: Recovered(c, d)[b] == d[b]
  {
  }

  /** What comes of it: the second block recorded makes the list as long as the log, header included, so the last turn
      of
      write_log stores on the block behind the log, a home block, before any header is written. A crash then leaves that
      block neither as it was nor recoverable. */
  lemma OverrunCorrupts(c: Config)
    returns (d: seq<Block>, ls: seq<Label>, s: State, b: nat, data: Block, e: seq<Block>)
    requires c.Valid() && c.blocks >= c.size + LOGSIZE && 2 <= c.size < LOGSIZE + 1 && c.start + c.size < c.blocks
    ensures |d| == c.blocks && Runs(c, Boot(c, d), ls, s) && Budgeted(c, Boot(c, d), ls) && Shape(c, s)
    ensures s.phase == Running && c.Home(b) && b !in s.lh && exists i :: OverrunBy(c, s, i)
    ensures |s.lh + [b]| == c.size && e == LogWritten(c, s.disk, s.cur[b := data], s.lh + [b], c.size)
    ensures HeaderOf(s.disk[c.start]) == [] == HeaderOf(e[c.start])
    ensures c.Home(c.start + c.size) && !SameHome(c, Recovered(c, e), Recovered(c, s.disk))
  {
    hide Runs, Budgeted, HeaderOf, Recovered, OverrunBy;
    var i;
    d, ls, s, i := TwoPastGuard(c);
    b := HomeBlock(c, |s.lh|);
    ZeroHeader();
    BootInv(c, d);
    InvRun(c, Recovered(c, d), Boot(c, d), ls, s);
    var x := c.start + c.size;
    data := if s.disk[x] == Zeroed() then seq(512, _ => 1) else Zeroed();
    assert Zeroed()[0] == 0;
    e := LogWritten(c, s.disk, s.cur[b := data], s.lh + [b], c.size);
    NothingInstalled(c, e);
    NothingInstalled(c, s.disk);
    assert e[x] == data != s.disk[x];
  }

  // ---------- rewriting a logged block ----------

  /** Every operation of the run logs at most m new blocks. */
  predicate Thrifty(c: Config, s: State, ls: seq<Label>, m: nat)
    requires Shape(c, s)
    decreases |ls|
  {
    ls == [] || (KeepsTo(s, ls[0], m) && Enabled(c, s, ls[0]) && Thrifty(c, Do(c, s, ls[0]), ls[1..], m))
  }

  predicate KeepsTo(s: State, l: Label, m: nat) {
    l.LogWrite? ==> l.b in s.lh || (l.i < |s.active| && s.active[l.i].used < m)
  }

  lemma {:induction false} ThriftyMore(c: Config, s: State, ls: seq<Label>, m: nat, n: nat)
    requires Shape(c, s) && Thrifty(c, s, ls, m) && m <= n
    ensures Thrifty(c, s, ls, n)
    decreases |ls|
  {
    hide Shape, Enabled, Do;
    if ls != [] { ThriftyMore(c, Do(c, s, ls[0]), ls[1..], m, n); }
  }

  lemma {:induction false} ThriftyBudget(c: Config, s: State, ls: seq<Label>)
    requires Shape(c, s)
    ensures Thrifty(c, s, ls, MAXOPBLOCKS) == Budgeted(c, s, ls)
    decreases |ls|
  {
    if ls != [] && Enabled(c, s, ls[0]) {
      ThriftyBudget(c, Do(c, s, ls[0]), ls[1..]);
    }
    hide Shape, Enabled, Do;
  }

  lemma {:induction false} ThriftyRun(c: Config, s: State, ls: seq<Label>, t: State, m: nat)
    requires Shape(c, s) && Runs(c, s, ls, t) && Thrifty(c, s, ls, m)
    requires forall i | 0 <= i < |s.active| :: s.active[i].used <= m
    ensures forall i | 0 <= i < |t.active| :: t.active[i].used <= m
    decreases |ls|
  {
    if ls != [] {
      hide HeaderOf, PutHeader, Shape;
      ThriftyRun(c, Do(c, s, ls[0]), ls[1..], t, m);
    }
  }

  /** A run whose operations log at most m new blocks each ends where logging a logged block again panics. */
  ghost predicate RewritePanics(c: Config, m: nat)
    requires c.Valid()
  {
    exists d: seq<Block>, ls, s ::
      |d| == c.blocks && Runs(c, Boot(c, d), ls, s) && Thrifty(c, Boot(c, d), ls, m)
      && s.phase == Running && s.active != [] && s.lh != [] && TooBig(c, s)
  }

  /** Exactly when that can happen: when the operations may spend the whole of what begin_op reserves. */
  lemma RewritePanicIff(c: Config, m: nat)
    requires c.Valid() && c.size >= LOGSIZE + 1 && c.blocks >= c.size + LOGSIZE
    ensures RewritePanics(c, m) <==> m >= MAXOPBLOCKS
  {
    hide Runs, Budgeted, Thrifty, Shape;
    if m >= MAXOPBLOCKS {
      var d, ls, s, b := RewritePanicReachable(c);
      ThriftyBudget(c, Boot(c, d), ls);
      ThriftyMore(c, Boot(c, d), ls, MAXOPBLOCKS, m);
    } else if RewritePanics(c, m) {
      var d: seq<Block>, ls, s :| |d| == c.blocks && Runs(c, Boot(c, d), ls, s) && Thrifty(c, Boot(c, d), ls, m)
        && s.phase == Running && s.active != [] && s.lh != [] && TooBig(c, s);
      ThriftyRun(c, Boot(c, d), ls, s, m);
      ThriftyMore(c, Boot(c, d), ls, m, MAXOPBLOCKS);
      ThriftyBudget(c, Boot(c, d), ls);
      SpaceSafety(c, d, ls, s);
    }
  }

  // ---------- sleepers ----------

  /** Nobody sleeps in begin_op while the log is idle and has room. */
  predicate Wakeful(s: State) {
    s.sleepers > 0 ==> !(s.phase == Running && HasSpace(s))
  }

  lemma {:induction false} WakefulRun(c: Config, s: State, ls: seq<Label>, t: State)
    requires Shape(c, s) && Runs(c, s, ls, t) && Wakeful(s)
    ensures Wakeful(t)
    decreases |ls|
  {
    hide HeaderOf, PutHeader, Shape;
    if ls != [] {
      WakefulRun(c, Do(c, s, ls[0]), ls[1..], t);
    }
  }

  /** No wakeup is lost: whoever sleeps in begin_op waits for a commit under way, or for an
      operation still open whose end_op will wake it. */
  lemma NoLostWakeup(c: Config, d: seq<Block>, ls: seq<Label>, s: State)
    requires c.Valid() && |d| == c.blocks && GoodHeader(c, HeaderOf(d[c.start])) && Runs(c, Boot(c, d), ls, s)
    ensures s.sleepers > 0 ==> s.phase != Running || (!HasSpace(s) && s.active != [])
  {
    hide Runs, Recovered;
    WakefulRun(c, Boot(c, d), ls, s);
    BootInv(c, d);
    InvRun(c, Recovered(c, d), Boot(c, d), ls, s);
  }
}
