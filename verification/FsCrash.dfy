/** The file system on top of the log: what a crash leaves of it. */
module FsCrash {
  import opened Blocks
  import opened LogMachine
  import opened LogSafety
  import opened FsLayout
  import opened FsBytes

  /** The log lies before the inodes. */
  predicate Fits(c: Config, g: Geometry) {
    c.Valid() && g.Valid() && g.size == c.blocks && c.start + c.size <= g.inodestart
  }

  /** Disk e holds the inodes of disk d, and the same bytes in each. */
  ghost predicate SameFiles(g: Geometry, d: seq<Block>, e: seq<Block>) {
    forall ds: seq<Inode> | Carries(g, d, ds) ::
      Carries(g, e, ds) && forall i | 0 <= i < |ds| :: ds[i].Valid() && Content(e, ds[i]) == Content(d, ds[i])
  }

  /** Nothing in the log area matters to the file system. */
  lemma SameHomeCarries(c: Config, g: Geometry, d: seq<Block>, e: seq<Block>, ds: seq<Inode>)
    requires Fits(c, g) && SameHome(c, d, e) && Carries(g, d, ds)
    ensures Carries(g, e, ds)
    ensures forall i | 0 <= i < |ds| :: ds[i].Valid() && Content(e, ds[i]) == Content(d, ds[i])
  {
    hide Owned, Synced, Content;
    var own :| Owned(g, d, ds, own, {});
    SameHomeOwned(c, g, d, e, ds, own);
    SameHomeSynced(c, g, d, e, ds, own);
    OwnedShape(g, d, ds, own, {});
    forall i | 0 <= i < |ds| ensures Content(e, ds[i]) == Content(d, ds[i]) {
      SameHomeContent(c, g, d, e, ds, own, i);
    }
  }

  lemma SameHomeOwned(c: Config, g: Geometry, d: seq<Block>, e: seq<Block>, ds: seq<Inode>, own: map<nat, (nat, nat)>)
    requires Fits(c, g) && SameHome(c, d, e) && Owned(g, d, ds, own, {})
    ensures Owned(g, e, ds, own, {}) && forall b | b in own :: e[b] == d[b]
  {
    HomeBlocks(c, g, d, e);
    OwnRange(g, d, ds, own, {});
    assert forall b | b in own :: e[b] == d[b];
    SameSlots(g, d, ds, own, {}, e);
    hide Slot;
    forall x | 0 <= x < g.size ensures InUse(g, e, x) == InUse(g, d, x) { MapBlock(g, x); }
    hide InUse;
  }

  lemma HomeBlocks(c: Config, g: Geometry, d: seq<Block>, e: seq<Block>)
    requires Fits(c, g) && SameHome(c, d, e)
    ensures |d| == |e| == g.size && forall b | g.inodestart <= b < g.size :: e[b] == d[b]
  {
    assert forall b: nat | g.inodestart <= b < g.size :: c.Home(b);
  }

  lemma SameHomeSynced(c: Config, g: Geometry, d: seq<Block>, e: seq<Block>, ds: seq<Inode>, own: map<nat, (nat, nat)>)
    requires Fits(c, g) && SameHome(c, d, e) && Synced(g, d, ds) && Owned(g, d, ds, own, {})
    ensures Synced(g, e, ds)
  {
    HomeBlocks(c, g, d, e);
    SameHomeOwned(c, g, d, e, ds, own);
    SameSlots(g, d, ds, own, {}, e);
    hide Owned, Slot, Decode;
    forall j | 0 <= j < |ds| ensures DiskInode(g, e, j) == ds[j] {
      assert e[g.IBlock(j)] == d[g.IBlock(j)];
    }
  }

  lemma SameHomeContent(c: Config, g: Geometry, d: seq<Block>, e: seq<Block>, ds: seq<Inode>,
                        own: map<nat, (nat, nat)>, i: nat)
    requires Fits(c, g) && SameHome(c, d, e) && Owned(g, d, ds, own, {}) && i < |ds|
    ensures ds[i].Valid() && Content(e, ds[i]) == Content(d, ds[i])
  {
    SameHomeOwned(c, g, d, e, ds, own);
    Untouched(g, d, ds, own, {}, e);
  }

  /** Every committed group, on its own, takes one file system to another. */
  ghost predicate GroupsKeep(g: Geometry, base: seq<Block>, done: seq<seq<Write>>) {
    forall i: nat | i < |done| ::
      FileSystem(g, Apply(base, Flatten(done[..i]))) ==> FileSystem(g, Apply(base, Flatten(done[..i + 1])))
  }

  lemma {:induction false} KeptAll(g: Geometry, base: seq<Block>, done: seq<seq<Write>>, n: nat)
    requires GroupsKeep(g, base, done) && FileSystem(g, base) && n <= |done|
    ensures FileSystem(g, Apply(base, Flatten(done[..n])))
  {
    hide FileSystem;
    if n == 0 {
      assert done[..0] == [];
      assert Flatten(done[..0]) == [];
    } else {
      KeptAll(g, base, done, n - 1);
    }
  }

  /** Main result. A disk found with a file system on it has one after any run and any crashes: the one the committed
      groups have made, file for file. */
  lemma CrashesKeepFiles(c: Config, g: Geometry, d: seq<Block>, ls: seq<Label>, s: State)
    requires Fits(c, g) && |d| == c.blocks && GoodHeader(c, HeaderOf(d[c.start])) && Runs(c, Boot(c, d), ls, s)
    requires FileSystem(g, Recovered(c, d)) && GroupsKeep(g, Recovered(c, d), s.done)
    ensures |s.disk| == c.blocks && GoodHeader(c, HeaderOf(s.disk[c.start])) && FileSystem(g, Recovered(c, s.disk))
    ensures FileSystem(g, Apply(Recovered(c, d), Flatten(s.done)))
    ensures SameFiles(g, Apply(Recovered(c, d), Flatten(s.done)), Recovered(c, s.disk))
  {
    hide Runs, Recovered, HeaderOf, Apply, Flatten, Carries, Synced, Content;
    CrashSafety(c, d, ls, s);
    KeptAll(g, Recovered(c, d), s.done, |s.done|);
    assert s.done[..|s.done|] == s.done;
    var after, r := Apply(Recovered(c, d), Flatten(s.done)), Recovered(c, s.disk);
    forall b: nat | c.Home(b) ensures after[b] == r[b] {}
    forall ds: seq<Inode> | Carries(g, after, ds)
      ensures Carries(g, r, ds)
      ensures forall i | 0 <= i < |ds| :: ds[i].Valid() && Content(r, ds[i]) == Content(after, ds[i]) {
      SameHomeCarries(c, g, after, r, ds);
    }
    var ds :| Carries(g, after, ds);
    assert Carries(g, r, ds);
  }

  // ---------- the groups of file operations ----------

  /** The writes that turn disk d into disk e, as far as the first k blocks go. */
  function GroupOf(d: seq<Block>, e: seq<Block>, op: nat, k: nat): seq<Write>
    requires k <= |d| == |e|
  {
    if k == 0 then []
    else if d[k - 1] == e[k - 1] then GroupOf(d, e, op, k - 1)
    else GroupOf(d, e, op, k - 1) + [Write(op, k - 1, e[k - 1])]
  }

  lemma {:induction false} GroupApplies(d: seq<Block>, e: seq<Block>, op: nat, k: nat)
    requires k <= |d| == |e|
    ensures Apply(d, GroupOf(d, e, op, k)) == e[..k] + d[k..]
    ensures forall w | w in GroupOf(d, e, op, k) :: w.b < |d| && d[w.b] != e[w.b] && w.op == op
  {
    hide Apply;
    if k == 0 {
      assert d[0..] == d && Apply(d, []) == d by { ApplyNone(d); }
    } else {
      GroupApplies(d, e, op, k - 1);
      Further(d, e, k - 1);
      if d[k - 1] != e[k - 1] { ApplySnoc(d, GroupOf(d, e, op, k - 1), Write(op, k - 1, e[k - 1])); }
    }
  }

  lemma ApplyNone(d: seq<Block>)
    ensures Apply(d, []) == d
  {
  }

  lemma Further(d: seq<Block>, e: seq<Block>, k: nat)
    requires k < |d| == |e|
    ensures (e[..k] + d[k..])[k := e[k]] == e[..k + 1] + d[k + 1..]
    ensures d[k] == e[k] ==> e[..k] + d[k..] == e[..k + 1] + d[k + 1..]
  {
    var a, b := (e[..k] + d[k..])[k := e[k]], e[..k + 1] + d[k + 1..];
    assert forall x | 0 <= x < |d| :: a[x] == b[x];
  }

  /** One group for each of the first n transactions. */
  function Groups(states: seq<seq<Block>>, n: nat): (gs: seq<seq<Write>>)
    requires n < |states| && forall k | 0 <= k < |states| :: |states[k]| == |states[0]|
    ensures |gs| == n
  {
    if n == 0 then [] else Groups(states, n - 1) + [GroupOf(states[n - 1], states[n], n - 1, |states[0]|)]
  }

  lemma SameSize(g: Geometry, d0: seq<Block>, txns: seq<set<nat>>, states: seq<seq<Block>>)
    requires Transactions(g, d0, txns, states)
    ensures forall k | 0 <= k < |states| :: |states[k]| == |states[0]| == g.size
  {
    hide Traced;
    forall k | 0 <= k < |states| ensures |states[k]| == g.size {
      var ds :| Carries(g, states[k], ds);
    }
  }

  /** Transactions of the file system, each logged as a group, are groups that keep file systems: what GroupsKeep asks
      for. Group i writes only blocks that transaction i logged, and leads from its first state to its second. */
  lemma {:induction false} TransactionGroups(g: Geometry, d0: seq<Block>, txns: seq<set<nat>>, states: seq<seq<Block>>,
                                             n: nat)
    requires Transactions(g, d0, txns, states) && n <= |txns|
    ensures forall k | 0 <= k < |states| :: |states[k]| == |states[0]|
    ensures Apply(d0, Flatten(Groups(states, n))) == states[n]
    ensures forall i: nat | i <= n :: Groups(states, n)[..i] == Groups(states, i)
    ensures forall i, w | 0 <= i < n && w in Groups(states, n)[i] :: w.b in txns[i]
    ensures GroupsKeep(g, d0, Groups(states, n))
  {
    SameSize(g, d0, txns, states);
    if n == 0 {
      assert Flatten([]) == [];
    } else {
      TransactionGroups(g, d0, txns, states, n - 1);
      GroupNext(g, d0, txns, states, n);
    }
  }

  lemma GroupNext(g: Geometry, d0: seq<Block>, txns: seq<set<nat>>, states: seq<seq<Block>>, n: nat)
    requires Transactions(g, d0, txns, states) && 0 < n <= |txns|
    requires forall k | 0 <= k < |states| :: |states[k]| == |states[0]|
    requires Apply(d0, Flatten(Groups(states, n - 1))) == states[n - 1]
    requires forall i: nat | i <= n - 1 :: Groups(states, n - 1)[..i] == Groups(states, i)
    requires forall i, w | 0 <= i < n - 1 && w in Groups(states, n - 1)[i] :: w.b in txns[i]
    requires GroupsKeep(g, d0, Groups(states, n - 1))
    ensures Apply(d0, Flatten(Groups(states, n))) == states[n]
    ensures forall i: nat | i <= n :: Groups(states, n)[..i] == Groups(states, i)
    ensures forall i, w | 0 <= i < n && w in Groups(states, n)[i] :: w.b in txns[i]
    ensures GroupsKeep(g, d0, Groups(states, n))
  {
    hide FileSystem, GroupOf, Apply, Flatten, Transactions;
    LastState(g, d0, txns, states, n);
    var gs, d, e := Groups(states, n - 1), states[n - 1], states[n];
    var w := GroupOf(d, e, n - 1, |d|);
    GroupApplies(d, e, n - 1, |d|);
    assert e[..|d|] + d[|d|..] == e;
    FlattenSnoc(gs, w);
    ApplyConcat(d0, Flatten(gs), w);
    forall i: nat | i <= n ensures Groups(states, n)[..i] == Groups(states, i) {
      if i < n { assert Groups(states, n)[..i] == gs[..i]; }
    }
    GroupLogged(g, d0, txns, states, n - 1, w);
    KeepSnoc(g, d0, gs, w);
  }

  lemma LastState(g: Geometry, d0: seq<Block>, txns: seq<set<nat>>, states: seq<seq<Block>>, n: nat)
    requires Transactions(g, d0, txns, states) && n <= |txns|
    ensures |states| == |txns| + 1 && states[0] == d0 && FileSystem(g, states[n])
  {
    hide FileSystem, Traced;
  }

  lemma GroupLogged(g: Geometry, d0: seq<Block>, txns: seq<set<nat>>, states: seq<seq<Block>>, k: nat, ws: seq<Write>)
    requires Transactions(g, d0, txns, states) && k < |txns|
    requires forall w | w in ws ::
      w.b < |states[k]| && |states[k]| == |states[k + 1]| && states[k][w.b] != states[k + 1][w.b]
    ensures forall w | w in ws :: w.b in txns[k]
  {
    hide FileSystem;
  }

  lemma KeepSnoc(g: Geometry, d0: seq<Block>, gs: seq<seq<Write>>, w: seq<Write>)
    requires GroupsKeep(g, d0, gs)
    ensures FileSystem(g, Apply(d0, Flatten(gs + [w]))) ==> GroupsKeep(g, d0, gs + [w])
  {
    hide FileSystem, Apply, Flatten;
    var hs := gs + [w];
    assert hs[..|hs|] == hs;
    assert forall i: nat | i <= |gs| :: hs[..i] == gs[..i];
  }

  /** So, when a run commits the transactions of the file system in order, whatever crashes it meets, the recovered disk
      holds the files as they were after the last one committed. */
  lemma TransactionsSurvive(c: Config, g: Geometry, d: seq<Block>, ls: seq<Label>, s: State, txns: seq<set<nat>>,
                            states: seq<seq<Block>>)
    requires Fits(c, g) && |d| == c.blocks && GoodHeader(c, HeaderOf(d[c.start])) && Runs(c, Boot(c, d), ls, s)
    requires Transactions(g, Recovered(c, d), txns, states) && |s.done| <= |txns|
    requires forall i: nat | i <= |s.done| :: Apply(Recovered(c, d), Flatten(s.done[..i])) == states[i]
    ensures |s.disk| == c.blocks && GoodHeader(c, HeaderOf(s.disk[c.start])) && FileSystem(g, Recovered(c, s.disk))
    ensures SameFiles(g, states[|s.done|], Recovered(c, s.disk))
  {
    hide Runs, Recovered, HeaderOf, Apply, Flatten, FileSystem, SameFiles;
    assert s.done[..|s.done|] == s.done;
    CrashesKeepFiles(c, g, d, ls, s);
  }
}
