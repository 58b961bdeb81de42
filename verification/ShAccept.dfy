/** sh.c: which command lines the parser takes, in terms of the tokens still to come. */
module ShAccept {
  import opened ShWords
  import opened ShGrammar

  /** No command of the tree has more arguments than the vector holds. */
  predicate Small(t: Tree) {
    match t
    case TExec(args) => |args| < MAXARGS
    case TRedir(c, _, _, _) => Small(c)
    case TPipe(l, r) => Small(l) && Small(r)
    case TList(l, r) => Small(l) && Small(r)
    case TBack(c) => Small(c)
  }

  lemma {:induction false} WrapSmall(t: Tree, rs: seq<Into>)
    ensures Small(Wrap(t, rs)) == Small(t)
    decreases |rs|
  {
    if rs != [] {
      WrapSmall(t, rs[..|rs| - 1]);
    }
  }

  /** The tokens are over, or go on with one of these symbols. */
  predicate End(us: seq<Tok>, stops: string) {
    us == [] || (us[0].Sym? && us[0].c in stops)
  }

  // The first n tokens are a line, a pipeline and so on, and what follows cannot belong to it.

  ghost predicate CanLine(us: seq<Tok>, n: nat) {
    n <= |us| && End(us[n..], ")") && exists t :: IsLine(t, us[..n]) && Small(t)
  }

  ghost predicate CanBacks(us: seq<Tok>, n: nat) {
    n <= |us| && End(us[n..], ";)") && exists t :: IsBacks(t, us[..n]) && Small(t)
  }

  ghost predicate CanPipe(us: seq<Tok>, n: nat) {
    n <= |us| && End(us[n..], "&;)") && exists t :: IsPipe(t, us[..n]) && Small(t)
  }

  ghost predicate CanExec(us: seq<Tok>, n: nat) {
    n <= |us| && End(us[n..], "|&;)") && exists t :: IsExec(t, us[..n]) && Small(t)
  }

  predicate Arrow(t: Tok) { t.Sym? && t.c in "<>+" }

  /** Arguments and redirections, read forwards. */
  predicate Forward(ts: seq<Tok>)
    decreases |ts|
  {
    ts == [] || (ts[0].Arg? && Forward(ts[1..])) || (|ts| >= 2 && Arrow(ts[0]) && ts[1].Arg? && Forward(ts[2..]))
  }

  /** How many of them are arguments. */
  function Plains(ts: seq<Tok>): nat
    decreases |ts|
  {
    if ts == [] then 0 else if ts[0].Arg? then 1 + Plains(ts[1..]) else if |ts| >= 2 then Plains(ts[2..]) else 0
  }

  ghost predicate CanArgs(us: seq<Tok>, n: nat) {
    n <= |us| && End(us[n..], "|&;)") && Forward(us[..n]) && Plains(us[..n]) < MAXARGS
  }

  /** A parenthesised line of k - 1 tokens and its redirections. */
  ghost predicate CanBlock(us: seq<Tok>, n: nat, k: nat) {
    && 1 <= k < n <= |us| && us[0] == Sym('(') && us[k] == Sym(')') && CanLine(us[1..], k - 1)
    && End(us[n..], "|&;)") && Forward(us[k + 1..n]) && Plains(us[k + 1..n]) == 0
  }

  /** A stretch that is not empty starts with its first token. */
  lemma FirstOf(us: seq<Tok>, m: nat)
    requires m < |us|
    ensures us[m..][0] == us[m] && forall n: nat | m <= n <= |us| :: us[m..n] == [] <==> n == m
    ensures forall n: nat | m < n <= |us| :: us[m..n][0] == us[m]
  {
  }

  /** An argument, or a redirection. */
  predicate Item(h: seq<Tok>) {
    (|h| == 1 && h[0].Arg?) || (|h| == 2 && Arrow(h[0]) && h[1].Arg?)
  }

  lemma ForwardItem(h: seq<Tok>, ts: seq<Tok>)
    requires Item(h)
    ensures Forward(h + ts) == Forward(ts) && Plains(h + ts) == Plains(ts) + 2 - |h|
  {
    assert (h + ts)[|h|..] == ts;
  }

  lemma FirstItem(ts: seq<Tok>) returns (k: nat)
    requires ts != [] && Forward(ts)
    ensures 0 < k <= |ts| && Item(ts[..k]) && ts == ts[..k] + ts[k..] && Forward(ts[k..])
    ensures k == if ts[0].Arg? then 1 else 2
  {
    k := if ts[0].Arg? then 1 else 2;
  }

  lemma {:induction false} ForwardConcat(xs: seq<Tok>, ys: seq<Tok>)
    requires Forward(xs) && Forward(ys)
    ensures Forward(xs + ys) && Plains(xs + ys) == Plains(xs) + Plains(ys)
    decreases |xs|
  {
    hide Forward, Plains, Item;
    if xs == [] {
      ForwardNone();
      assert xs + ys == ys;
    } else {
      var k := FirstItem(xs);
      ForwardItem(xs[..k], xs[k..]);
      ForwardConcat(xs[k..], ys);
      ForwardItem(xs[..k], xs[k..] + ys);
      assert xs + ys == xs[..k] + (xs[k..] + ys);
    }
  }

  lemma ForwardArg(w: Span)
    ensures Forward([Arg(w)]) && Plains([Arg(w)]) == 1
  {
    assert [Arg(w)][1..] == [];
  }

  lemma ForwardInto(i: Into)
    requires i.Proper()
    ensures Forward([Sym(i.c), Arg(i.w)]) && Plains([Sym(i.c), Arg(i.w)]) == 0
  {
    assert [Sym(i.c), Arg(i.w)][2..] == [];
  }

  lemma {:induction false} MixForward(args: seq<Span>, rs: seq<Into>, ts: seq<Tok>)
    requires Mix(args, rs, ts)
    ensures Forward(ts) && Plains(ts) == |args|
    decreases |ts|
  {
    hide Mix, Forward, Plains;
    MixParts(args, rs, ts);
    var n := |ts|;
    if n == 0 {
      ForwardNone();
    } else if n >= 2 && ts[n - 2].Sym? {
      var i := rs[|rs| - 1];
      MixForward(args, rs[..|rs| - 1], ts[..n - 2]);
      ForwardInto(i);
      ForwardConcat(ts[..n - 2], [Sym(i.c), Arg(i.w)]);
      assert ts[..n - 2] + [Sym(i.c), Arg(i.w)] == ts;
    } else {
      var w := args[|args| - 1];
      MixForward(args[..|args| - 1], rs, ts[..n - 1]);
      ForwardArg(w);
      ForwardConcat(ts[..n - 1], [Arg(w)]);
      assert ts[..n - 1] + [Arg(w)] == ts;
    }
  }

  lemma ForwardNone()
    ensures Forward([]) && Plains([]) == 0
  {
  }

  lemma {:induction false} RowsForward(rs: seq<Into>)
    requires forall r | r in rs :: r.Proper()
    ensures Forward(Rows(rs)) && Plains(Rows(rs)) == 0
    decreases |rs|
  {
    if rs == [] {
      ForwardNone();
    } else {
      var i := rs[|rs| - 1];
      assert i in rs && forall r | r in rs[..|rs| - 1] :: r in rs;
      RowsForward(rs[..|rs| - 1]);
      ForwardInto(i);
      ForwardConcat(Rows(rs[..|rs| - 1]), [Sym(i.c), Arg(i.w)]);
    }
  }

  // What a derivation says about the tokens to come, once the first part of it has been parsed.

  lemma LineAfter(us: seq<Tok>, n: nat)
    requires CanLine(us, n)
    ensures n <= |us|
    ensures CanBacks(us, n) || exists k ::
      0 <= k < n && us[k] == Sym(';') && CanBacks(us, k) && CanLine(us[k + 1..], n - k - 1)
  {
    hide IsBacks;
    var ts := us[..n];
    var t :| IsLine(t, ts) && Small(t);
    if !IsBacks(t, ts) {
      var k :| 0 <= k < |ts| && ts[k] == Sym(';') && IsBacks(t.left, ts[..k]) && IsLine(t.right, ts[k + 1..]);
      hide IsLine;
      assert us[..k] == ts[..k] && us[k..][0] == Sym(';');
      assert us[k + 1..][..n - k - 1] == ts[k + 1..] && us[k + 1..][n - k - 1..] == us[n..];
      assert CanBacks(us, k) && CanLine(us[k + 1..], n - k - 1);
    }
  }

  lemma PipeAfter(us: seq<Tok>, n: nat)
    requires CanPipe(us, n)
    ensures n <= |us|
    ensures CanExec(us, n) || exists k ::
      0 <= k < n && us[k] == Sym('|') && CanExec(us, k) && CanPipe(us[k + 1..], n - k - 1)
  {
    hide IsExec;
    var ts := us[..n];
    var t :| IsPipe(t, ts) && Small(t);
    if !IsExec(t, ts) {
      var k :| 0 <= k < |ts| && ts[k] == Sym('|') && IsExec(t.left, ts[..k]) && IsPipe(t.right, ts[k + 1..]);
      hide IsPipe;
      assert us[..k] == ts[..k] && us[k..][0] == Sym('|');
      assert us[k + 1..][..n - k - 1] == ts[k + 1..] && us[k + 1..][n - k - 1..] == us[n..];
      assert CanExec(us, k) && CanPipe(us[k + 1..], n - k - 1);
    }
  }

  /** A tree in the background i times over. */
  function Backed(c: Tree, i: nat): Tree { if i == 0 then c else TBack(Backed(c, i - 1)) }

  lemma {:induction false} BacksSplit(t: Tree, ts: seq<Tok>) returns (c: Tree, k: nat)
    requires IsBacks(t, ts)
    ensures k <= |ts| && IsPipe(c, ts[..k]) && (forall j | k <= j < |ts| :: ts[j] == Sym('&'))
    ensures t == Backed(c, |ts| - k) && Small(c) == Small(t)
    decreases |ts|
  {
    if IsPipe(t, ts) {
      c, k := t, |ts|;
      assert ts[..k] == ts;
    } else {
      var n := |ts| - 1;
      c, k := BacksSplit(t.cmd, ts[..n]);
      hide IsBacks, IsPipe;
      assert ts[..n][..k] == ts[..k];
      assert forall j | k <= j < n :: ts[j] == ts[..n][j];
    }
  }

  lemma BacksAfter(us: seq<Tok>, n: nat)
    requires CanBacks(us, n)
    ensures exists k :: 0 <= k <= n && CanPipe(us, k) && forall j | k <= j < n :: us[j] == Sym('&')
  {
    var ts := us[..n];
    var t :| IsBacks(t, ts) && Small(t);
    var c, k := BacksSplit(t, ts);
    hide IsBacks, IsPipe;
    assert us[..k] == ts[..k];
    assert k < n ==> ts[k] == us[k] == us[k..][0];
    assert CanPipe(us, k);
    assert forall j | k <= j < n :: us[j] == ts[j];
  }

  lemma ExecAfter(us: seq<Tok>, n: nat)
    requires CanExec(us, n)
    ensures (CanArgs(us, n) && !(us != [] && us[0] == Sym('('))) || exists k: nat :: CanBlock(us, n, k)
  {
    hide IsLine, Mix, Wrap, Rows, Forward, Plains, CanBlock;
    var ts := us[..n];
    var t :| IsExec(t, ts) && Small(t);
    if args: seq<Span>, rs: seq<Into> :| t == Wrap(TExec(args), rs) && Mix(args, rs, ts) {
      hide IsExec;
      WrapSmall(TExec(args), rs);
      MixForward(args, rs, ts);
      ForwardStart(us, n);
    } else {
      var c: Tree, rs: seq<Into>, k: nat :| 1 <= k < |ts| && t == Wrap(c, rs)
        && ts[0] == Sym('(') && IsLine(c, ts[1..k])
        && ts[k] == Sym(')') && ts[k + 1..] == Rows(rs) && forall r | r in rs :: r.Proper();
      hide IsExec;
      WrapSmall(c, rs);
      RowsForward(rs);
      BlockCan(us, n, k, c);
    }
  }

  lemma ForwardStart(us: seq<Tok>, n: nat)
    requires n <= |us| && Forward(us[..n]) && End(us[n..], "|&;)")
    ensures us != [] ==> us[0] != Sym('(')
  {
    if n == 0 {
      assert us[0..] == us;
    } else {
      assert us[..n][0] == us[0];
    }
  }

  lemma BlockCan(us: seq<Tok>, n: nat, k: nat, c: Tree)
    requires 1 <= k < n <= |us| && us[0] == Sym('(') && us[k] == Sym(')') && IsLine(c, us[..n][1..k]) && Small(c)
    requires End(us[n..], "|&;)") && Forward(us[..n][k + 1..]) && Plains(us[..n][k + 1..]) == 0
    ensures CanBlock(us, n, k)
  {
    hide IsLine, Forward, Plains;
    assert us[1..][..k - 1] == us[..n][1..k];
    assert us[1..][k - 1..] == us[k..] && us[k..][0] == Sym(')');
    assert us[..n][k + 1..] == us[k + 1..n];
  }

  /** The tokens to come, of any stretch. */
  lemma {:induction false} Tokens(line: string, s: nat) returns (us: seq<Tok>)
    requires Boundary(line, s)
    ensures Lexed(line, s, |line|, us)
    decreases |line| - s
  {
    var q := s;
    while q < |line| && White(line[q])
      invariant Blank(line, s, q)
    {
      q := q + 1;
    }
    if q == |line| {
      us := [];
    } else {
      NoWords(line, s, q);
      var e, t := NextTok(line, q);
      TokWords(line, q, e, t);
      var rest := Tokens(line, e);
      LexedCons(line, s, q, e, |line|, t, rest);
      us := [t] + rest;
    }
  }

  lemma NextTok(line: string, q: nat) returns (e: nat, t: Tok)
    requires Boundary(line, q) && q < |line| && !White(line[q])
    ensures TokAt(line, q, e, t) && q < e <= |line|
  {
    if !Symbol(line[q]) {
      e := q + 1;
      while e < |line| && Plain(line[e])
        invariant q < e <= |line| && forall k | q <= k < e :: Plain(line[k])
      {
        e := e + 1;
      }
      t := Arg(Span(q, e));
    } else if line[q] == '>' && Ch(line, q + 1) == '>' {
      e, t := q + 2, Sym('+');
    } else {
      e, t := q + 1, Sym(line[q]);
    }
  }
}
