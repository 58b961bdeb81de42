/** The write-ahead log as a machine of atomic steps: one step per critical section of
    log.lock, one for the guard log_write reads before it takes that lock, and one per block
    written to the disk, with a crash possible between any two.
    `cur` is the disk as the buffer cache shows it; `issued`, `group` and `done` are history. */
module LogMachine {
  import opened Blocks

  const LOGSIZE: nat := 30
  const MAXOPBLOCKS: nat := 10

  /** Where the log lies (log.start, log.size), on a disk of so many blocks. */
  datatype Config = Config(start: nat, size: nat, blocks: nat) {
    predicate Valid() { size >= 1 && start + size <= blocks < UINT }
    predicate Home(b: nat) { b < blocks && !(start <= b < start + size) }
  }

  datatype Write = Write(op: nat, b: nat, data: Block)

  /** An operation between begin_op and end_op; `used` counts the blocks it was first to log, and `checked` says that
      it has passed the guard of log_write and not yet recorded its block. */
  datatype Op = Op(id: nat, used: nat, checked: bool)

  /** Overrun: a block was recorded for which the log area or lh.block has no room. What the code does to memory and
      disk from there on is not followed. */
  datatype Phase = Running | Logging(k: nat) | Installing(k: nat, recovering: bool) | Finishing | Down | Overrun

  datatype State = State(
    disk: seq<Block>, cur: seq<Block>, lh: seq<nat>, active: seq<Op>, phase: Phase, sleepers: nat,
    next: nat, epoch: nat, issued: seq<Write>, group: seq<Write>, done: seq<seq<Write>>)

  datatype Label =
    | Begin | BeginSleep | Check(i: nat) | LogWrite(i: nat, b: nat, data: Block) | End(i: nat)
    | LogBlock | WriteHead | NothingToCommit | InstallBlock | EraseHead | Finish
    | Crash | ReadHead

  // ---------- the on-disk header ----------

  /** The block numbers listed in a header block: its first word says how many there are. */
  function HeaderOf(b: Block): (lh: seq<nat>)
    ensures |lh| == WordAt(b, 0)
  {
    seq(WordAt(b, 0), i requires 0 <= i => if i + 1 < WORDS then WordAt(b, 1 + i) else 0)
  }

  /** The header block after write_head: n, then the n block numbers; the rest stays. */
  function PutHeader(b: Block, lh: seq<nat>): (r: Block)
    requires |lh| <= LOGSIZE && forall i | 0 <= i < |lh| :: lh[i] < UINT
  {
    PutWords(b, 0, HeaderWords(lh))
  }

  function HeaderWords(lh: seq<nat>): (ws: seq<Word>)
    requires |lh| <= LOGSIZE && forall i | 0 <= i < |lh| :: lh[i] < UINT
    ensures |ws| == 1 + |lh| && ws[0] == |lh| && forall i | 0 <= i < |lh| :: ws[1 + i] == lh[i]
  {
    seq(1 + |lh|, i requires 0 <= i <= |lh| => (if i == 0 then |lh| else lh[i - 1]) as Word)
  }

  /** read_head after write_head gives back the list. */
  lemma HeaderRoundTrip(b: Block, lh: seq<nat>)
    requires |lh| <= LOGSIZE && forall i | 0 <= i < |lh| :: lh[i] < UINT
    ensures HeaderOf(PutHeader(b, lh)) == lh
  {
    hide WordAt, PutWords;
    var ws := HeaderWords(lh);
    var r := PutHeader(b, lh);
    PutWordsAt(b, 0, ws, 0);
    forall i | 0 <= i < |lh| ensures WordAt(r, 1 + i) == lh[i] {
      PutWordsAt(b, 0, ws, 1 + i);
    }
  }

  predicate Distinct(lh: seq<nat>) {
    forall i, j | 0 <= i < j < |lh| :: lh[i] != lh[j]
  }

  /** What log_write keeps true of the logged block numbers. */
  predicate GoodHeader(c: Config, lh: seq<nat>) {
    |lh| <= LOGSIZE && |lh| < c.size && Distinct(lh) && forall i | 0 <= i < |lh| :: c.Home(lh[i])
  }

  // ---------- steps ----------

  predicate Shape(c: Config, s: State) {
    c.Valid() && |s.disk| == c.blocks && |s.cur| == c.blocks && GoodHeader(c, s.lh)
  }

  predicate HasSpace(s: State) {
    |s.lh| + (|s.active| + 1) * MAXOPBLOCKS <= LOGSIZE
  }

  /** The guard of log_write that panics with "too big a transaction". */
  predicate TooBig(c: Config, s: State) {
    |s.lh| >= LOGSIZE || |s.lh| >= c.size - 1
  }

  /** A list that gains block b still fits in lh.block and in the log area. */
  predicate Room(c: Config, s: State, b: nat) {
    b in s.lh || (|s.lh| < LOGSIZE && |s.lh| + 1 < c.size)
  }

  predicate Enabled(c: Config, s: State, l: Label)
    requires Shape(c, s)
  {
    match l
    case Begin => s.phase == Running && HasSpace(s)
    case BeginSleep => s.phase != Down && s.phase != Overrun && !(s.phase.Installing? && s.phase.recovering)
      && !(s.phase == Running && HasSpace(s))
    case Check(i) => s.phase == Running && i < |s.active| && !s.active[i].checked && !TooBig(c, s)
    case LogWrite(i, b, data) => s.phase == Running && i < |s.active| && s.active[i].checked && c.Home(b)
    case End(i) => s.phase == Running && i < |s.active| && !s.active[i].checked
    case LogBlock => s.phase.Logging? && s.phase.k < |s.lh|
    case WriteHead => s.phase == Logging(|s.lh|) && s.lh != []
    case NothingToCommit => s.phase == Logging(0) && s.lh == []
    case InstallBlock => s.phase.Installing? && s.phase.k < |s.lh|
    case EraseHead => s.phase.Installing? && s.phase.k == |s.lh|
    case Finish => s.phase == Finishing
    case Crash => s.phase != Overrun
    case ReadHead => s.phase == Down && GoodHeader(c, HeaderOf(s.disk[c.start]))
  }

  function Do(c: Config, s: State, l: Label): (t: State)
    requires Shape(c, s) && Enabled(c, s, l)
    ensures Shape(c, t)
  {
    match l
    case Begin => s.(active := s.active + [Op(s.next, 0, false)], next := s.next + 1)
    case BeginSleep => s.(sleepers := s.sleepers + 1)
    case Check(i) => s.(active := s.active[i := s.active[i].(checked := true)])
    case LogWrite(i, b, data) =>
      var w := Write(s.active[i].id, b, data);
      var t := s.(cur := s.cur[b := data], issued := s.issued + [w], group := s.group + [w]);
      var x := s.active[i].(checked := false);
      if b in s.lh then t.(active := s.active[i := x])
      else if Room(c, s, b) then t.(lh := s.lh + [b], active := s.active[i := x.(used := x.used + 1)])
      else s.(phase := Overrun)
    case End(i) =>
      var left := s.active[..i] + s.active[i + 1..];
      if left == [] then s.(active := [], phase := Logging(0))
      else s.(active := left, sleepers := 0)
    case LogBlock =>
      var k := s.phase.k;
      s.(disk := s.disk[c.start + 1 + k := s.cur[s.lh[k]]], phase := Logging(k + 1))
    case WriteHead =>
      s.(disk := s.disk[c.start := PutHeader(s.disk[c.start], s.lh)], phase := Installing(0, false),
         done := s.done + [s.group], group := [], epoch := s.next)
    case NothingToCommit => s.(phase := Finishing)
    case InstallBlock =>
      var k := s.phase.k;
      var v := s.disk[c.start + 1 + k];
      s.(disk := s.disk[s.lh[k] := v], cur := s.cur[s.lh[k] := v], phase := s.phase.(k := k + 1))
    case EraseHead =>
      s.(disk := s.disk[c.start := PutHeader(s.disk[c.start], [])], lh := [], phase := Finishing)
    case Finish => s.(phase := Running, sleepers := 0)
    case Crash =>
      s.(cur := s.disk, lh := [], active := [], phase := Down, sleepers := 0, group := [], epoch := s.next)
    case ReadHead => s.(cur := s.disk, lh := HeaderOf(s.disk[c.start]), phase := Installing(0, true))
  }

  /** ls leads from s to t. */
  predicate Runs(c: Config, s: State, ls: seq<Label>, t: State)
    requires Shape(c, s)
    decreases |ls|
  {
    if ls == [] then s == t
    else Enabled(c, s, ls[0]) && Runs(c, Do(c, s, ls[0]), ls[1..], t)
  }

  lemma {:induction false} RunsConcat(c: Config, s: State, ls: seq<Label>, t: State, ms: seq<Label>, u: State)
    requires Shape(c, s) && Runs(c, s, ls, t)
    requires Shape(c, t) && Runs(c, t, ms, u)
    ensures Runs(c, s, ls + ms, u)
    decreases |ls|
  {
    hide Shape, Enabled, Do;
    if ls == [] {
      assert ls + ms == ms;
    } else {
      RunsConcat(c, Do(c, s, ls[0]), ls[1..], t, ms, u);
      assert (ls + ms)[1..] == ls[1..] + ms;
    }
  }

  // ---------- meaning of a disk and of a history ----------

  /** The disk d after the first k blocks of the log were copied home. */
  function Installed(c: Config, d: seq<Block>, lh: seq<nat>, k: nat): (r: seq<Block>)
    requires c.Valid() && |d| == c.blocks && GoodHeader(c, lh) && k <= |lh|
    ensures |r| == |d|
  {
    if k == 0 then d else Installed(c, d, lh, k - 1)[lh[k - 1] := d[c.start + k]]
  }

  /** What an uninterrupted recover_from_log makes of the disk d. */
  function Recovered(c: Config, d: seq<Block>): (r: seq<Block>)
    requires c.Valid() && |d| == c.blocks && GoodHeader(c, HeaderOf(d[c.start]))
    ensures |r| == |d|
  {
    var lh := HeaderOf(d[c.start]);
    Installed(c, d, lh, |lh|)[c.start := PutHeader(d[c.start], [])]
  }

  function Apply(d: seq<Block>, ws: seq<Write>): (r: seq<Block>)
    ensures |r| == |d|
    decreases |ws|
  {
    if ws == [] then d
    else
      var w := ws[|ws| - 1];
      var r := Apply(d, ws[..|ws| - 1]);
      if w.b < |d| then r[w.b := w.data] else r
  }

  function Flatten(gs: seq<seq<Write>>): seq<Write>
    decreases |gs|
  {
    if gs == [] then [] else Flatten(gs[..|gs| - 1]) + gs[|gs| - 1]
  }

  /** The writes of one operation, in order. */
  function Of(id: nat, ws: seq<Write>): (r: seq<Write>)
    ensures (forall w | w in ws :: w.op != id) ==> r == []
    ensures forall w | w in r :: w in ws && w.op == id
    decreases |ws|
  {
    if ws == [] then []
    else
      var r := Of(id, ws[..|ws| - 1]);
      if ws[|ws| - 1].op == id then r + [ws[|ws| - 1]] else r
  }

  /** Two disks agree outside the log. */
  ghost predicate SameHome(c: Config, d: seq<Block>, e: seq<Block>) {
    |d| == c.blocks && |e| == c.blocks && forall b: nat | c.Home(b) :: d[b] == e[b]
  }

  lemma {:induction false} ApplyConcat(d: seq<Block>, ws: seq<Write>, vs: seq<Write>)
    ensures Apply(d, ws + vs) == Apply(Apply(d, ws), vs)
    decreases |vs|
  {
    if vs == [] {
      assert ws + vs == ws;
    } else {
      assert (ws + vs)[..|ws + vs| - 1] == ws + vs[..|vs| - 1];
      ApplyConcat(d, ws, vs[..|vs| - 1]);
    }
  }

  lemma FlattenSnoc(gs: seq<seq<Write>>, g: seq<Write>)
    ensures Flatten(gs + [g]) == Flatten(gs) + g
  {
    assert (gs + [g])[..|gs + [g]| - 1] == gs;
  }

  lemma {:induction false} ApplyUntouched(d: seq<Block>, ws: seq<Write>, b: nat)
    requires b < |d| && forall w | w in ws :: w.b != b
    ensures Apply(d, ws)[b] == d[b]
    decreases |ws|
  {
    if ws != [] {
      ApplyUntouched(d, ws[..|ws| - 1], b);
    }
  }

  lemma {:induction false} OfConcat(id: nat, ws: seq<Write>, vs: seq<Write>)
    ensures Of(id, ws + vs) == Of(id, ws) + Of(id, vs)
    decreases |vs|
  {
    if vs == [] {
      assert ws + vs == ws;
    } else {
      assert (ws + vs)[..|ws + vs| - 1] == ws + vs[..|vs| - 1];
      OfConcat(id, ws, vs[..|vs| - 1]);
    }
  }
}
