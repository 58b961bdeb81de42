/** Theorems about every run of the log machine. */
module LogSafety {
  import opened Blocks
  import opened LogMachine

  // ---------- crash safety ----------

  /** Recovery from disk d yields base: d's header names a block list and the log holds base's version of it. */
  ghost predicate Recoverable(c: Config, d: seq<Block>, base: seq<Block>)
    requires c.Valid()
  {
    |d| == c.blocks && |base| == c.blocks &&
    var lh := HeaderOf(d[c.start]);
    && GoodHeader(c, lh)
    && (forall b: nat | c.Home(b) && b !in lh :: d[b] == base[b])
    && (forall i | 0 <= i < |lh| :: d[c.start + 1 + i] == base[lh[i]])
  }

  lemma {:induction false} InstalledAt(c: Config, d: seq<Block>, lh: seq<nat>, k: nat, b: nat)
    requires c.Valid() && |d| == c.blocks && GoodHeader(c, lh) && k <= |lh| && b < |d|
    ensures b !in lh[..k] ==> Installed(c, d, lh, k)[b] == d[b]
    ensures forall i | 0 <= i < k && lh[i] == b :: Installed(c, d, lh, k)[b] == d[c.start + 1 + i]
  {
    if k > 0 {
      InstalledAt(c, d, lh, k - 1, b);
      assert lh[k - 1] in lh[..k];
      assert forall x | x in lh[..k - 1] :: x in lh[..k];
    }
  }

  lemma RecoverableMeans(c: Config, d: seq<Block>, base: seq<Block>)
    requires c.Valid() && Recoverable(c, d, base)
    ensures SameHome(c, Recovered(c, d), base)
  {
    var lh := HeaderOf(d[c.start]);
    forall b: nat | c.Home(b) ensures Recovered(c, d)[b] == base[b] {
      InstalledAt(c, d, lh, |lh|, b);
      assert lh[..|lh|] == lh;
    }
  }

  ghost predicate Covered(s: State) {
    (s.lh == [] ==> s.group == []) && forall w | w in s.group :: w.b in s.lh
  }

  /** base0 is the disk before the run; base, the disk after every committed group. */
  ghost function Base(base0: seq<Block>, s: State): seq<Block> {
    Apply(base0, Flatten(s.done))
  }

  ghost predicate Inv(c: Config, base0: seq<Block>, s: State)
    requires Shape(c, s)
  {
    var base := Base(base0, s);
    var header := HeaderOf(s.disk[c.start]);
    && Recoverable(c, s.disk, base)
    && match s.phase
       case Running =>
         header == [] && SameHome(c, s.cur, Apply(base, s.group)) && Covered(s) && (s.active == [] ==> s.lh == [])
       case Logging(k) =>
         && header == [] && SameHome(c, s.cur, Apply(base, s.group)) && Covered(s) && s.active == []
         && k <= |s.lh| && forall i | 0 <= i < k :: s.disk[c.start + 1 + i] == s.cur[s.lh[i]]
       case Installing(k, recovering) =>
         && header == s.lh && s.group == [] && s.active == [] && k <= |s.lh|
         && (forall i | 0 <= i < k :: s.disk[s.lh[i]] == base[s.lh[i]] == s.cur[s.lh[i]])
         && (forall b: nat | c.Home(b) && b !in s.lh :: s.cur[b] == base[b])
         && (!recovering ==> SameHome(c, s.cur, base))
       case Finishing => header == [] && s.lh == [] && s.group == [] && s.active == [] && SameHome(c, s.cur, base)
       case Down => s.group == [] && s.active == [] && s.lh == []
       case Overrun => header == [] && SameHome(c, s.cur, Apply(base, s.group)) && Covered(s)
  }

  lemma InvLogWrite(c: Config, base0: seq<Block>, s: State, i: nat, b: nat, data: Block)
    requires Shape(c, s) && Inv(c, base0, s) && Enabled(c, s, LogWrite(i, b, data))
    ensures Inv(c, base0, Do(c, s, LogWrite(i, b, data)))
  {
    hide HeaderOf, PutHeader, Recoverable, Flatten, Apply;
    var t := Do(c, s, LogWrite(i, b, data));
    ApplySnoc(Base(base0, s), s.group, Write(s.active[i].id, b, data));
    if Room(c, s, b) {
      assert forall x | x in s.lh :: x in t.lh;
      assert b in t.lh;
    }
  }

  lemma ApplySnoc(d: seq<Block>, ws: seq<Write>, w: Write)
    ensures Apply(d, ws + [w]) == if w.b < |d| then Apply(d, ws)[w.b := w.data] else Apply(d, ws)
  {
    assert (ws + [w])[..|ws + [w]| - 1] == ws;
  }

  lemma CleanDisk(c: Config, d: seq<Block>, base: seq<Block>)
    requires c.Valid() && Recoverable(c, d, base) && HeaderOf(d[c.start]) == []
    ensures SameHome(c, d, base)
  {
  }

  /** Writing the header commits: the disk now recovers to `after`. */
  lemma CommitPoint(c: Config, d: seq<Block>, lh: seq<nat>, base: seq<Block>, after: seq<Block>)
    requires c.Valid() && |d| == |base| == |after| == c.blocks && GoodHeader(c, lh)
    requires forall b: nat | c.Home(b) && b !in lh :: d[b] == base[b] == after[b]
    requires forall i | 0 <= i < |lh| :: d[c.start + 1 + i] == after[lh[i]]
    ensures Recoverable(c, d[c.start := PutHeader(d[c.start], lh)], after)
  {
    hide HeaderOf, PutHeader;
    HeaderRoundTrip(d[c.start], lh);
  }

  lemma InvWriteHead(c: Config, base0: seq<Block>, s: State)
    requires Shape(c, s) && Inv(c, base0, s) && Enabled(c, s, WriteHead)
    ensures Inv(c, base0, Do(c, s, WriteHead))
  {
    hide HeaderOf, PutHeader, Recoverable, Apply, Flatten;
    HeaderRoundTrip(s.disk[c.start], s.lh);
    CleanDisk(c, s.disk, Base(base0, s));
    var base, t := Base(base0, s), Do(c, s, WriteHead);
    FlattenSnoc(s.done, s.group);
    ApplyConcat(base0, Flatten(s.done), s.group);
    var after := Base(base0, t);
    assert after == Apply(base, s.group);
    forall b: nat | c.Home(b) && b !in s.lh ensures s.disk[b] == base[b] == after[b] {
      ApplyUntouched(base, s.group, b);
    }
    assert forall i | 0 <= i < |s.lh| :: c.Home(s.lh[i]);
    CommitPoint(c, s.disk, s.lh, base, after);
  }

  /** Copying a logged block home, once more or for the first time, keeps the disk recoverable. */
  lemma InstallKeeps(c: Config, d: seq<Block>, base: seq<Block>, lh: seq<nat>, k: nat)
    requires c.Valid() && Recoverable(c, d, base) && HeaderOf(d[c.start]) == lh && k < |lh|
    ensures c.Home(lh[k]) && d[c.start + 1 + k] == base[lh[k]]
    ensures Recoverable(c, d[lh[k] := base[lh[k]]], base)
  {
    assert c.Home(lh[k]) && lh[k] in lh;
    var e := d[lh[k] := base[lh[k]]];
    assert e[c.start] == d[c.start];
  }

  lemma InvInstall(c: Config, base0: seq<Block>, s: State)
    requires Shape(c, s) && Inv(c, base0, s) && Enabled(c, s, InstallBlock)
    ensures Inv(c, base0, Do(c, s, InstallBlock))
  {
    hide HeaderOf, Recoverable, Recovered, PutHeader, Apply, Flatten;
    InstallKeeps(c, s.disk, Base(base0, s), s.lh, s.phase.k);
    assert s.lh[s.phase.k] in s.lh;
  }

  lemma InvErase(c: Config, base0: seq<Block>, s: State)
    requires Shape(c, s) && Inv(c, base0, s) && Enabled(c, s, EraseHead)
    ensures Inv(c, base0, Do(c, s, EraseHead))
  {
    hide HeaderOf, PutHeader, Apply, Flatten;
    HeaderRoundTrip(s.disk[c.start], []);
    var base := Base(base0, s);
    var t := Do(c, s, EraseHead);
    forall b: nat | c.Home(b) ensures t.disk[b] == base[b] == t.cur[b] {
      if b in s.lh {
        var i :| 0 <= i < |s.lh| && s.lh[i] == b;
      }
    }
  }

  lemma InvStep(c: Config, base0: seq<Block>, s: State, l: Label)
    requires Shape(c, s) && Inv(c, base0, s) && Enabled(c, s, l)
    ensures Inv(c, base0, Do(c, s, l))
  {
    hide HeaderOf, Flatten;
    match l
    case LogWrite(i, b, data) => InvLogWrite(c, base0, s, i, b, data);
    case LogBlock => assert c.Home(s.lh[s.phase.k]);
    case WriteHead => InvWriteHead(c, base0, s);
    case InstallBlock => InvInstall(c, base0, s);
    case EraseHead => InvErase(c, base0, s);
    case _ =>
  }

  lemma {:induction false} InvRun(c: Config, base0: seq<Block>, s: State, ls: seq<Label>, t: State)
    requires Shape(c, s) && Inv(c, base0, s) && Runs(c, s, ls, t)
    ensures Shape(c, t) && Inv(c, base0, t)
    decreases |ls|
  {
    hide Shape, Enabled, Do, Inv;
    if ls != [] {
      InvStep(c, base0, s, ls[0]);
      InvRun(c, base0, Do(c, s, ls[0]), ls[1..], t);
    }
  }

  /** A machine switched on with the disk d. */
  function Boot(c: Config, d: seq<Block>): (s: State)
    requires c.Valid() && |d| == c.blocks
    ensures Shape(c, s)
  {
    State(d, d, [], [], Down, 0, 0, 0, [], [], [])
  }

  lemma BootInv(c: Config, d: seq<Block>)
    requires c.Valid() && |d| == c.blocks && GoodHeader(c, HeaderOf(d[c.start]))
    ensures Inv(c, Recovered(c, d), Boot(c, d))
  {
    var lh := HeaderOf(d[c.start]);
    var base := Recovered(c, d);
    assert Flatten([]) == [];
    forall b: nat | c.Home(b) && b !in lh ensures d[b] == base[b] {
      InstalledAt(c, d, lh, |lh|, b);
      assert lh[..|lh|] == lh;
    }
    forall i | 0 <= i < |lh| ensures d[c.start + 1 + i] == base[lh[i]] {
      InstalledAt(c, d, lh, |lh|, lh[i]);
    }
  }

  /** Main result. After any run, crashes and interrupted recoveries included, recovery leaves
      the home blocks with exactly the groups whose commit header was written, in order. */
  lemma CrashSafety(c: Config, d: seq<Block>, ls: seq<Label>, s: State)
    requires c.Valid() && |d| == c.blocks && GoodHeader(c, HeaderOf(d[c.start]))
    requires Runs(c, Boot(c, d), ls, s)
    ensures Shape(c, s) && GoodHeader(c, HeaderOf(s.disk[c.start]))
    ensures SameHome(c, Recovered(c, s.disk), Apply(Recovered(c, d), Flatten(s.done)))
    ensures s.phase == Down ==> Enabled(c, s, ReadHead)
    ensures s.phase == Running ==> SameHome(c, s.cur, Apply(Apply(Recovered(c, d), Flatten(s.done)), s.group))
    ensures s.phase != Running && s.phase != Overrun ==> s.active == []
  {
    BootInv(c, d);
    InvRun(c, Recovered(c, d), Boot(c, d), ls, s);
    RecoverableMeans(c, s.disk, Base(Recovered(c, d), s));
  }

  /** A commit that is cut anywhere, by any number of crashes, some of them in recovery, takes effect
      as a whole iff its header block was written; otherwise it leaves no trace. */
  lemma CommitAtomic(c: Config, d: seq<Block>, ls: seq<Label>, s: State, ms: seq<Label>, t: State)
    requires c.Valid() && |d| == c.blocks && GoodHeader(c, HeaderOf(d[c.start]))
    requires Runs(c, Boot(c, d), ls, s) && Shape(c, s)
    requires s.phase.Logging? && Runs(c, s, ms, t) && Begin !in ms
    ensures Shape(c, t) && GoodHeader(c, HeaderOf(t.disk[c.start]))
    ensures var before := Apply(Recovered(c, d), Flatten(s.done));
            SameHome(c, Recovered(c, t.disk), if WriteHead in ms then Apply(before, s.group) else before)
  {
    RunsConcat(c, Boot(c, d), ls, s, ms, t);
    CrashSafety(c, d, ls, s);
    CrashSafety(c, d, ls + ms, t);
    OneHeader(c, s, ms, t);
    if WriteHead in ms {
      assert (s.done + [s.group])[..|s.done|] == s.done;
      ApplyConcat(Recovered(c, d), Flatten(s.done), s.group);
    }
  }

  lemma {:induction false} OneHeader(c: Config, s: State, ms: seq<Label>, t: State)
    requires Shape(c, s) && s.active == [] && Runs(c, s, ms, t) && Begin !in ms
    ensures s.phase.Logging? ==> t.done == if WriteHead in ms then s.done + [s.group] else s.done
    ensures !s.phase.Logging? ==> t.done == s.done && WriteHead !in ms
    decreases |ms|
  {
    if ms != [] {
      var u := Do(c, s, ms[0]);
      assert ms[0] in ms && ms == [ms[0]] + ms[1..];
      OneHeader(c, u, ms[1..], t);
    }
  }
}
