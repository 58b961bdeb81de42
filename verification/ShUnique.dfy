/** sh.c: the grammar of command lines is unambiguous. */
module ShUnique {
  import opened ShWords
  import opened ShGrammar
  import opened ShAccept

  /** Arguments and redirections end where another token comes, so in one place. */
  lemma {:induction false} ForwardOnce(us: seq<Tok>, m: nat, n: nat)
    requires m <= |us| && n <= |us| && Forward(us[..m]) && Forward(us[..n])
    requires End(us[m..], "|&;)") && End(us[n..], "|&;)")
    ensures m == n
    decreases |us|
  {
    hide Forward, End, Item;
    if m == 0 || n == 0 {
      ForwardNothing(us, m);
      ForwardNothing(us, n);
    } else {
      var k := FirstItem(us[..m]);
      var j := FirstItem(us[..n]);
      assert us[..m][0] == us[0] == us[..n][0];
      assert us[k..][..m - k] == us[..m][k..] && us[k..][..n - k] == us[..n][k..];
      assert us[k..][m - k..] == us[m..] && us[k..][n - k..] == us[n..];
      ForwardOnce(us[k..], m - k, n - k);
    }
  }

  lemma ForwardNothing(us: seq<Tok>, m: nat)
    requires m <= |us| && Forward(us[..m])
    ensures End(us[0..], "|&;)") ==> m == 0
  {
    if us != [] { FirstOf(us, 0); }
    assert us[0..m] == us[..m];
  }

  lemma {:induction false} MixOnce(args: seq<Span>, rs: seq<Into>, args2: seq<Span>, rs2: seq<Into>, ts: seq<Tok>)
    requires Mix(args, rs, ts) && Mix(args2, rs2, ts)
    ensures args == args2 && rs == rs2
    decreases |ts|
  {
    hide Mix;
    MixParts(args, rs, ts);
    MixParts(args2, rs2, ts);
    var n := |ts|;
    if n == 0 {
    } else if n >= 2 && ts[n - 2].Sym? {
      MixOnce(args, rs[..|rs| - 1], args2, rs2[..|rs2| - 1], ts[..n - 2]);
      SameLast(rs, rs2, ts[n - 2..]);
    } else {
      MixOnce(args[..|args| - 1], rs, args2[..|args2| - 1], rs2, ts[..n - 1]);
      assert args == args[..|args| - 1] + [args[|args| - 1]] && args2 == args2[..|args2| - 1] + [args2[|args2| - 1]];
    }
  }

  lemma SameLast(rs: seq<Into>, rs2: seq<Into>, two: seq<Tok>)
    requires rs != [] && rs2 != [] && rs[..|rs| - 1] == rs2[..|rs2| - 1]
    requires two == [Sym(rs[|rs| - 1].c), Arg(rs[|rs| - 1].w)] == [Sym(rs2[|rs2| - 1].c), Arg(rs2[|rs2| - 1].w)]
    ensures rs == rs2
  {
    var i, j := rs[|rs| - 1], rs2[|rs2| - 1];
    assert two[0] == Sym(i.c) == Sym(j.c) && two[1] == Arg(i.w) == Arg(j.w);
    assert rs == rs[..|rs| - 1] + [i] && rs2 == rs2[..|rs2| - 1] + [j];
  }

  /** Rows of redirections are mixes without arguments. */
  lemma RowsOnce(rs: seq<Into>, rs2: seq<Into>)
    requires Rows(rs) == Rows(rs2) && (forall i | i in rs :: i.Proper()) && forall i | i in rs2 :: i.Proper()
    ensures rs == rs2
  {
    hide Mix, Rows;
    MixNone();
    MixRows([], [], [], rs);
    MixRows([], [], [], rs2);
    assert [] + rs == rs && [] + rs2 == rs2 && [] + Rows(rs) == Rows(rs);
    MixOnce([], rs, [], rs2, Rows(rs));
  }

  lemma MixNone()
    ensures Mix([], [], [])
  {
  }

  /** A command is either arguments and redirections, or a block of k - 1 tokens and redirections. */
  ghost predicate PlainFrom(t: Tree, us: seq<Tok>, m: nat, args: seq<Span>, rs: seq<Into>) {
    m <= |us| && t == Wrap(TExec(args), rs) && Mix(args, rs, us[..m])
  }

  ghost predicate BlockFrom(t: Tree, us: seq<Tok>, m: nat, c: Tree, k: nat, rs: seq<Into>) {
    && 1 <= k < m <= |us| && t == Wrap(c, rs) && us[0] == Sym('(') && IsLine(c, us[1..][..k - 1]) && us[k] == Sym(')')
    && us[k + 1..][..m - k - 1] == Rows(rs) && forall r | r in rs :: r.Proper()
  }

  lemma ExecParts(t: Tree, us: seq<Tok>, m: nat) returns (block: bool, args: seq<Span>, c: Tree, k: nat, rs: seq<Into>)
    requires m <= |us| && IsExec(t, us[..m])
    ensures if block then BlockFrom(t, us, m, c, k, rs) else PlainFrom(t, us, m, args, rs)
  {
    hide IsLine, Mix, Wrap, Rows;
    var ts := us[..m];
    args, c, k, rs := [], t, 0, [];
    block := !exists a: seq<Span>, r: seq<Into> :: t == Wrap(TExec(a), r) && Mix(a, r, ts);
    if block {
      c, rs, k :| 1 <= k < |ts| && t == Wrap(c, rs) && ts[0] == Sym('(') && IsLine(c, ts[1..k])
        && ts[k] == Sym(')') && ts[k + 1..] == Rows(rs) && forall r | r in rs :: r.Proper();
      hide IsExec;
      assert us[1..][..k - 1] == ts[1..k] && us[k + 1..][..m - k - 1] == ts[k + 1..];
    } else {
      args, rs :| t == Wrap(TExec(args), rs) && Mix(args, rs, ts);
    }
  }

  lemma {:induction false} ExecOnce(us: seq<Tok>, m: nat, n: nat, t: Tree, u: Tree)
    requires m <= |us| && n <= |us| && IsExec(t, us[..m]) && IsExec(u, us[..n])
    requires End(us[m..], "|&;)") && End(us[n..], "|&;)")
    ensures m == n && t == u
    decreases |us|, 0
  {
    hide IsExec, PlainFrom, BlockFrom, End;
    var block, args, c, k, rs := ExecParts(t, us, m);
    var block2, args2, c2, k2, rs2 := ExecParts(u, us, n);
    if block && block2 {
      BlockStart(t, us, m, c, k, rs);
      BlockStart(u, us, n, c2, k2, rs2);
      LineOnce(us[1..], k - 1, k2 - 1, c, c2);
      BlockOnce(us, m, n, t, u, c, k, rs, rs2);
    } else if !block && !block2 {
      PlainOnce(us, m, n, t, u, args, args2, rs, rs2);
    } else if block {
      NotBoth(us, m, t, c, k, rs, n, u, args2, rs2);
    } else {
      NotBoth(us, n, u, c2, k2, rs2, m, t, args, rs);
    }
  }

  lemma BlockStart(t: Tree, us: seq<Tok>, m: nat, c: Tree, k: nat, rs: seq<Into>)
    requires BlockFrom(t, us, m, c, k, rs)
    ensures 0 < k <= |us| && IsLine(c, us[1..][..k - 1]) && End(us[1..][k - 1..], ")")
  {
    hide IsLine;
    assert us[1..][k - 1..] == us[k..] && us[k..][0] == us[k];
  }

  lemma BlockOnce(us: seq<Tok>, m: nat, n: nat, t: Tree, u: Tree, c: Tree, k: nat, rs: seq<Into>, rs2: seq<Into>)
    requires BlockFrom(t, us, m, c, k, rs) && BlockFrom(u, us, n, c, k, rs2)
    requires End(us[m..], "|&;)") && End(us[n..], "|&;)")
    ensures m == n && t == u
  {
    hide IsLine, End, Forward, Plains, Rows, Wrap;
    var vs := us[k + 1..];
    RowsForward(rs);
    RowsForward(rs2);
    assert vs[m - k - 1..] == us[m..] && vs[n - k - 1..] == us[n..];
    ForwardOnce(vs, m - k - 1, n - k - 1);
    RowsOnce(rs, rs2);
  }

  lemma PlainOnce(us: seq<Tok>, m: nat, n: nat, t: Tree, u: Tree, args: seq<Span>, args2: seq<Span>, rs: seq<Into>,
                  rs2: seq<Into>)
    requires PlainFrom(t, us, m, args, rs) && PlainFrom(u, us, n, args2, rs2)
    requires End(us[m..], "|&;)") && End(us[n..], "|&;)")
    ensures m == n && t == u
  {
    hide Mix, End, Forward, Plains, Wrap;
    MixForward(args, rs, us[..m]);
    MixForward(args2, rs2, us[..n]);
    ForwardOnce(us, m, n);
    MixOnce(args, rs, args2, rs2, us[..m]);
  }

  /** No command starts as both. */
  lemma NotBoth(us: seq<Tok>, m: nat, t: Tree, c: Tree, k: nat, rs: seq<Into>, n: nat, u: Tree, args: seq<Span>,
                rs2: seq<Into>)
    requires BlockFrom(t, us, m, c, k, rs)
    ensures !(PlainFrom(u, us, n, args, rs2) && End(us[n..], "|&;)"))
  {
    hide IsLine, Mix, Wrap, Rows, Forward, Plains, End;
    if PlainFrom(u, us, n, args, rs2) {
      MixForward(args, rs2, us[..n]);
      if End(us[n..], "|&;)") { ForwardStart(us, n); }
    }
  }

  lemma PipeParts(t: Tree, us: seq<Tok>, m: nat) returns (l: Tree, r: Tree, k: nat)
    requires m <= |us| && IsPipe(t, us[..m]) && End(us[m..], "&;)")
    ensures k <= m && IsExec(l, us[..k]) && End(us[k..], "|&;)") && (k == m ==> l == t)
    ensures k < m ==> us[k] == Sym('|') && t == TPipe(l, r) && IsPipe(r, us[k + 1..][..m - k - 1])
  {
    hide IsExec;
    var ts := us[..m];
    l, r, k := t, t, m;
    if !IsExec(t, ts) {
      k :| 0 <= k < |ts| && ts[k] == Sym('|') && IsExec(t.left, ts[..k]) && IsPipe(t.right, ts[k + 1..]);
      l, r := t.left, t.right;
      hide IsPipe;
      assert us[..k] == ts[..k] && us[k..][0] == Sym('|') && us[k + 1..][..m - k - 1] == ts[k + 1..];
    }
  }

  lemma {:induction false} PipeOnce(us: seq<Tok>, m: nat, n: nat, t: Tree, u: Tree)
    requires m <= |us| && n <= |us| && IsPipe(t, us[..m]) && IsPipe(u, us[..n])
    requires End(us[m..], "&;)") && End(us[n..], "&;)")
    ensures m == n && t == u
    decreases |us|, 1
  {
    hide IsPipe, IsExec;
    var l, r, k := PipeParts(t, us, m);
    var l2, r2, k2 := PipeParts(u, us, n);
    ExecOnce(us, k, k2, l, l2);
    NotAt(us, m, n, "&;)");
    if k < m && k < n {
      var vs := us[k + 1..];
      assert vs[m - k - 1..] == us[m..] && vs[n - k - 1..] == us[n..];
      PipeOnce(vs, m - k - 1, n - k - 1, r, r2);
    }
  }

  /** What follows does not start with any other symbol. */
  lemma NotAt(us: seq<Tok>, m: nat, n: nat, stops: string)
    requires m <= |us| && n <= |us| && End(us[m..], stops) && End(us[n..], stops)
    ensures m < |us| ==> us[m].Sym? && us[m].c in stops
    ensures n < |us| ==> us[n].Sym? && us[n].c in stops
  {
    assert m < |us| ==> us[m..][0] == us[m];
    assert n < |us| ==> us[n..][0] == us[n];
  }

  lemma {:induction false} BacksOnce(us: seq<Tok>, m: nat, n: nat, t: Tree, u: Tree)
    requires m <= |us| && n <= |us| && IsBacks(t, us[..m]) && IsBacks(u, us[..n])
    requires End(us[m..], ";)") && End(us[n..], ";)")
    ensures m == n && t == u
    decreases |us|, 2
  {
    hide IsBacks, IsPipe;
    var c, k := BacksUp(t, us, m);
    var c2, k2 := BacksUp(u, us, n);
    PipeOnce(us, k, k2, c, c2);
    NotAt(us, m, n, ";)");
  }

  lemma BacksUp(t: Tree, us: seq<Tok>, m: nat) returns (c: Tree, k: nat)
    requires m <= |us| && IsBacks(t, us[..m]) && End(us[m..], ";)")
    ensures k <= m && IsPipe(c, us[..k]) && End(us[k..], "&;)") && t == Backed(c, m - k)
    ensures forall j | k <= j < m :: us[j] == Sym('&')
  {
    hide IsBacks, IsPipe;
    c, k := BacksSplit(t, us[..m]);
    assert us[..m][..k] == us[..k];
    assert forall j | k <= j < m :: us[j] == us[..m][j];
    if k < m { FirstOf(us, k); }
  }

  lemma LineParts(t: Tree, us: seq<Tok>, m: nat) returns (l: Tree, r: Tree, k: nat)
    requires m <= |us| && IsLine(t, us[..m]) && End(us[m..], ")")
    ensures k <= m && IsBacks(l, us[..k]) && End(us[k..], ";)") && (k == m ==> l == t)
    ensures k < m ==> us[k] == Sym(';') && t == TList(l, r) && IsLine(r, us[k + 1..][..m - k - 1])
  {
    hide IsBacks;
    var ts := us[..m];
    l, r, k := t, t, m;
    if !IsBacks(t, ts) {
      k :| 0 <= k < |ts| && ts[k] == Sym(';') && IsBacks(t.left, ts[..k]) && IsLine(t.right, ts[k + 1..]);
      l, r := t.left, t.right;
      hide IsLine;
      assert us[..k] == ts[..k] && us[k..][0] == Sym(';') && us[k + 1..][..m - k - 1] == ts[k + 1..];
    }
  }

  lemma {:induction false} LineOnce(us: seq<Tok>, m: nat, n: nat, t: Tree, u: Tree)
    requires m <= |us| && n <= |us| && IsLine(t, us[..m]) && IsLine(u, us[..n])
    requires End(us[m..], ")") && End(us[n..], ")")
    ensures m == n && t == u
    decreases |us|, 3
  {
    hide IsLine, IsBacks;
    var l, r, k := LineParts(t, us, m);
    var l2, r2, k2 := LineParts(u, us, n);
    BacksOnce(us, k, k2, l, l2);
    NotAt(us, m, n, ")");
    if k < m && k < n {
      var vs := us[k + 1..];
      assert vs[m - k - 1..] == us[m..] && vs[n - k - 1..] == us[n..];
      LineOnce(vs, m - k - 1, n - k - 1, r, r2);
    }
  }

  /** Tokens have at most one derivation. */
  lemma OneTree(us: seq<Tok>, t: Tree, u: Tree)
    requires IsLine(t, us) && IsLine(u, us)
    ensures t == u
  {
    hide IsLine;
    assert us[..|us|] == us;
    LineOnce(us, |us|, |us|, t, u);
  }
}
