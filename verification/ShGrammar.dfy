/** sh.c: tokens, command trees, and the grammar of command lines, apart from the parser. */
module ShGrammar {
  import opened ShWords

  /** A token: a symbol, '+' standing for ">>" as gettoken reports it, or a word. */
  datatype Tok = Sym(c: char) | Arg(w: Span)

  /** The longest token at q, ending before e. */
  ghost predicate TokAt(line: string, q: nat, e: nat, t: Tok) {
    match t
    case Arg(w) => w == Span(q, e) && Word(line, w)
    case Sym(c) =>
      q < |line| && Symbol(line[q])
      && if line[q] == '>' && Ch(line, q + 1) == '>' then c == '+' && e == q + 2 else c == line[q] && e == q + 1
  }

  ghost predicate Blank(line: string, a: nat, b: nat) {
    a <= b <= |line| && forall k | a <= k < b :: White(line[k])
  }

  /** The characters from a to b are these tokens and white space. */
  ghost predicate Lexed(line: string, a: nat, b: nat, ts: seq<Tok>)
    decreases |ts|
  {
    if ts == [] then Blank(line, a, b)
    else exists q: nat, e: nat ::
      Blank(line, a, q) && q < e <= b <= |line| && TokAt(line, q, e, ts[0]) && Lexed(line, e, b, ts[1..])
  }

  lemma LexedCons(line: string, a: nat, q: nat, e: nat, b: nat, t: Tok, ts: seq<Tok>)
    requires Blank(line, a, q) && q < e <= b <= |line| && TokAt(line, q, e, t) && Lexed(line, e, b, ts)
    ensures Lexed(line, a, b, [t] + ts)
  {
    hide Blank, TokAt;
    assert ([t] + ts)[1..] == ts;
  }

  lemma LexedHead(line: string, a: nat, b: nat, ts: seq<Tok>) returns (q: nat, e: nat)
    requires ts != [] && Lexed(line, a, b, ts)
    ensures Blank(line, a, q) && q < e <= b <= |line| && TokAt(line, q, e, ts[0]) && Lexed(line, e, b, ts[1..])
  {
    q, e :| Blank(line, a, q) && q < e <= b <= |line| && TokAt(line, q, e, ts[0]) && Lexed(line, e, b, ts[1..]);
  }

  lemma {:induction false} LexedBounds(line: string, a: nat, b: nat, ts: seq<Tok>)
    requires Lexed(line, a, b, ts)
    ensures a <= b <= |line|
    decreases |ts|
  {
    if ts != [] {
      var q: nat, e: nat :| Blank(line, a, q) && q < e <= b <= |line| && TokAt(line, q, e, ts[0])
        && Lexed(line, e, b, ts[1..]);
    }
  }

  /** A line has one reading as tokens. */
  lemma {:induction false} LexedOnce(line: string, a: nat, xs: seq<Tok>, ys: seq<Tok>)
    requires Lexed(line, a, |line|, xs) && Lexed(line, a, |line|, ys)
    ensures xs == ys
    decreases |xs|
  {
    if xs == [] && ys == [] {
    } else if xs == [] {
      BlankNoTok(line, a, ys);
    } else if ys == [] {
      BlankNoTok(line, a, xs);
    } else {
      var q: nat, e: nat :| Blank(line, a, q) && q < e <= |line| && TokAt(line, q, e, xs[0])
        && Lexed(line, e, |line|, xs[1..]);
      var p: nat, f: nat :| Blank(line, a, p) && p < f <= |line| && TokAt(line, p, f, ys[0])
        && Lexed(line, f, |line|, ys[1..]);
      TokOnce(line, a, q, e, xs[0], p, f, ys[0]);
      LexedOnce(line, e, xs[1..], ys[1..]);
      assert xs == [xs[0]] + xs[1..] && ys == [ys[0]] + ys[1..];
    }
  }

  lemma TokFirst(line: string, q: nat, e: nat, t: Tok)
    requires TokAt(line, q, e, t)
    ensures q < |line| && !White(line[q]) && (t.Arg? <==> !Symbol(line[q]))
  {
    assert t.Arg? ==> Plain(line[q]);
  }

  lemma BlankNoTok(line: string, a: nat, ts: seq<Tok>)
    requires ts != [] && Lexed(line, a, |line|, ts)
    ensures !Blank(line, a, |line|)
  {
    var q: nat, e: nat :| Blank(line, a, q) && q < e <= |line| && TokAt(line, q, e, ts[0])
      && Lexed(line, e, |line|, ts[1..]);
    TokFirst(line, q, e, ts[0]);
  }

  lemma TokOnce(line: string, a: nat, q: nat, e: nat, x: Tok, p: nat, f: nat, y: Tok)
    requires Blank(line, a, q) && Blank(line, a, p) && TokAt(line, q, e, x) && TokAt(line, p, f, y)
    ensures q == p && e == f && x == y
  {
    TokFirst(line, q, e, x);
    TokFirst(line, p, f, y);
    if x.Arg? { SameWordAt(line, x.w, y); }
  }

  lemma SameWordAt(line: string, w: Span, y: Tok)
    requires Word(line, w) && y.Arg? && Word(line, y.w) && y.w.q == w.q
    ensures y.w == w
  {
    SameWord(line, w, y.w);
  }

  /** A parsed command, as values. */
  datatype Tree =
    | TExec(args: seq<Span>)
    | TRedir(cmd: Tree, file: Span, mode: int, fd: int)
    | TPipe(left: Tree, right: Tree)
    | TList(left: Tree, right: Tree)
    | TBack(cmd: Tree)

  const O_RDONLY: int := 0
  const O_WRONLY: int := 1
  const O_CREATE: int := 0x200

  /** One redirection in a line. */
  datatype Into = Into(c: char, w: Span) {
    predicate Proper() { c in "<>+" }

    /** "<" opens for reading as descriptor 0; ">" and ">>" for writing, creating the file, as descriptor 1. */
    function Mode(): int { if c == '<' then O_RDONLY else O_WRONLY + O_CREATE }

    function Fd(): int { if c == '<' then 0 else 1 }
  }

  /** A tree under redirections, the first innermost. */
  function Wrap(t: Tree, rs: seq<Into>): Tree
    decreases |rs|
  {
    if rs == [] then t else TRedir(Wrap(t, rs[..|rs| - 1]), rs[|rs| - 1].w, rs[|rs| - 1].Mode(), rs[|rs| - 1].Fd())
  }

  /** The tokens of redirections in a row. */
  function Rows(rs: seq<Into>): seq<Tok>
    decreases |rs|
  {
    if rs == [] then [] else Rows(rs[..|rs| - 1]) + [Sym(rs[|rs| - 1].c), Arg(rs[|rs| - 1].w)]
  }

  /** Arguments and redirections in any order make up these tokens, each kind in its own order. */
  ghost predicate Mix(args: seq<Span>, rs: seq<Into>, ts: seq<Tok>)
    decreases |ts|
  {
    var n := |ts|;
    if n == 0 then args == [] && rs == []
    else if n >= 2 && ts[n - 2].Sym? then
      rs != [] && rs[|rs| - 1].Proper() && ts[n - 2..] == [Sym(rs[|rs| - 1].c), Arg(rs[|rs| - 1].w)]
        && Mix(args, rs[..|rs| - 1], ts[..n - 2])
    else
      args != [] && ts[n - 1] == Arg(args[|args| - 1]) && Mix(args[..|args| - 1], rs, ts[..n - 1])
  }

  // line: backs, or backs ';' line;  backs: pipe, or backs '&';  pipe: exec, or exec '|' pipe;
  // exec: arguments and redirections, or '(' line ')' and redirections.

  ghost predicate IsLine(t: Tree, ts: seq<Tok>)
    decreases |ts|, 3
  {
    IsBacks(t, ts)
    || (t.TList? && exists k | 0 <= k < |ts| ::
      ts[k] == Sym(';') && IsBacks(t.left, ts[..k]) && IsLine(t.right, ts[k + 1..]))
  }

  ghost predicate IsBacks(t: Tree, ts: seq<Tok>)
    decreases |ts|, 2
  {
    IsPipe(t, ts) || (t.TBack? && ts != [] && ts[|ts| - 1] == Sym('&') && IsBacks(t.cmd, ts[..|ts| - 1]))
  }

  ghost predicate IsPipe(t: Tree, ts: seq<Tok>)
    decreases |ts|, 1
  {
    IsExec(t, ts)
    || (t.TPipe? && exists k | 0 <= k < |ts| ::
      ts[k] == Sym('|') && IsExec(t.left, ts[..k]) && IsPipe(t.right, ts[k + 1..]))
  }

  ghost predicate IsExec(t: Tree, ts: seq<Tok>)
    decreases |ts|, 0
  {
    (exists args: seq<Span>, rs: seq<Into> :: t == Wrap(TExec(args), rs) && Mix(args, rs, ts))
    || (exists c: Tree, rs: seq<Into>, k: nat | 1 <= k < |ts| ::
          t == Wrap(c, rs) && ts[0] == Sym('(') && IsLine(c, ts[1..k]) && ts[k] == Sym(')') && ts[k + 1..] == Rows(rs)
          && forall r | r in rs :: r.Proper())
  }

  /** The words among the tokens. */
  function Spans(ts: seq<Tok>): (r: multiset<Span>)
    decreases |ts|
  {
    if ts == [] then multiset{} else Spans(ts[..|ts| - 1]) + if ts[|ts| - 1].Arg? then multiset{ts[|ts| - 1].w}
      else multiset{}
  }

  lemma {:induction false} SpansConcat(xs: seq<Tok>, ys: seq<Tok>)
    ensures Spans(xs + ys) == Spans(xs) + Spans(ys)
    decreases |ys|
  {
    if ys == [] {
      assert xs + ys == xs;
    } else {
      assert (xs + ys)[..|xs + ys| - 1] == xs + ys[..|ys| - 1];
      SpansConcat(xs, ys[..|ys| - 1]);
    }
  }

  lemma SpansOne(t: Tok)
    ensures Spans([t]) == if t.Arg? then multiset{t.w} else multiset{}
  {
    assert [t][..0] == [];
  }

  lemma BlankWords(line: string, a: nat, b: nat)
    requires Blank(line, a, b) && Boundary(line, a)
    ensures Between(line, a, b) == multiset{} && Boundary(line, b)
  {
    NoWords(line, a, b);
    BetweenNone(line, a, b);
  }

  /** The tokens of a stretch hold its maximal words, each once. */
  lemma {:induction false} LexedWords(line: string, a: nat, b: nat, ts: seq<Tok>)
    requires Lexed(line, a, b, ts) && Boundary(line, a)
    ensures Spans(ts) == Between(line, a, b)
    decreases |ts|
  {
    hide Lexed, Blank, TokAt, Between, Boundary, Spans;
    if ts == [] {
      SpansNone();
      LexedNothing(line, a, b);
      BlankWords(line, a, b);
    } else {
      var q, e := LexedHead(line, a, b, ts);
      LexedBounds(line, e, b, ts[1..]);
      BlankWords(line, a, q);
      TokWords(line, q, e, ts[0]);
      LexedWords(line, e, b, ts[1..]);
      BetweenSplit(line, a, q, e);
      BetweenSplit(line, a, e, b);
      SpansHead(ts);
    }
  }

  lemma SpansNone()
    ensures Spans([]) == multiset{}
  {
  }

  lemma SpansHead(ts: seq<Tok>)
    requires ts != []
    ensures Spans(ts) == (if ts[0].Arg? then multiset{ts[0].w} else multiset{}) + Spans(ts[1..])
  {
    SpansConcat([ts[0]], ts[1..]);
    SpansOne(ts[0]);
    assert [ts[0]] + ts[1..] == ts;
  }

  lemma LexedNothing(line: string, a: nat, b: nat)
    requires Lexed(line, a, b, [])
    ensures Blank(line, a, b)
  {
  }

  lemma TokWords(line: string, q: nat, e: nat, t: Tok)
    requires TokAt(line, q, e, t) && e <= |line| && Boundary(line, q)
    ensures q < e && Boundary(line, e) && Between(line, q, e) == if t.Arg? then multiset{t.w} else multiset{}
  {
    if t.Arg? {
      OneWord(line, t.w);
      assert WordsTo(line, e) - WordsTo(line, q) == {t.w};
    } else {
      assert forall k | q <= k < e :: line[k] == line[q] || line[k] == '>';
      NoWords(line, q, e);
      BetweenNone(line, q, e);
    }
  }

  /** The words of a tree. */
  function TreeWords(t: Tree): multiset<Span> {
    match t
    case TExec(args) => multiset(args)
    case TRedir(c, w, _, _) => TreeWords(c) + multiset{w}
    case TPipe(l, r) => TreeWords(l) + TreeWords(r)
    case TList(l, r) => TreeWords(l) + TreeWords(r)
    case TBack(c) => TreeWords(c)
  }

  lemma {:induction false} WrapWords(t: Tree, rs: seq<Into>)
    ensures TreeWords(Wrap(t, rs)) == TreeWords(t) + Spans(Rows(rs))
    decreases |rs|
  {
    if rs != [] {
      var i := rs[|rs| - 1];
      WrapWords(t, rs[..|rs| - 1]);
      SpansTwo(i.c, i.w);
      SpansConcat(Rows(rs[..|rs| - 1]), [Sym(i.c), Arg(i.w)]);
    }
  }

  lemma SpansTwo(c: char, w: Span)
    ensures Spans([Sym(c), Arg(w)]) == multiset{w}
  {
    SpansConcat([Sym(c)], [Arg(w)]);
    SpansOne(Sym(c));
    SpansOne(Arg(w));
    assert [Sym(c)] + [Arg(w)] == [Sym(c), Arg(w)];
  }

  lemma {:induction false} MixWords(args: seq<Span>, rs: seq<Into>, ts: seq<Tok>)
    requires Mix(args, rs, ts)
    ensures Spans(ts) == multiset(args) + Spans(Rows(rs))
    decreases |ts|
  {
    hide Mix, Spans, Rows;
    MixParts(args, rs, ts);
    var n := |ts|;
    if n == 0 {
      NoWordsYet();
    } else if n >= 2 && ts[n - 2].Sym? {
      MixWords(args, rs[..|rs| - 1], ts[..n - 2]);
      IntoWords(rs, ts);
    } else {
      MixWords(args[..|args| - 1], rs, ts[..n - 1]);
      ArgWords(args, ts);
    }
  }

  lemma NoWordsYet()
    ensures Spans([]) == multiset{} && Rows([]) == []
  {
  }

  /** The definition of Mix, one step of it. */
  lemma MixParts(args: seq<Span>, rs: seq<Into>, ts: seq<Tok>)
    requires Mix(args, rs, ts)
    ensures ts == [] ==> args == [] && rs == []
    ensures |ts| >= 2 && ts[|ts| - 2].Sym? ==>
      rs != [] && rs[|rs| - 1].Proper()
      && ts[|ts| - 2..] == [Sym(rs[|rs| - 1].c), Arg(rs[|rs| - 1].w)] && Mix(args, rs[..|rs| - 1], ts[..|ts| - 2])
    ensures ts != [] && !(|ts| >= 2 && ts[|ts| - 2].Sym?) ==>
      args != [] && ts[|ts| - 1] == Arg(args[|args| - 1]) && Mix(args[..|args| - 1], rs, ts[..|ts| - 1])
  {
  }

  lemma ArgWords(args: seq<Span>, ts: seq<Tok>)
    requires args != [] && ts != [] && ts[|ts| - 1] == Arg(args[|args| - 1])
    ensures Spans(ts) == Spans(ts[..|ts| - 1]) + multiset{args[|args| - 1]}
    ensures multiset(args) == multiset(args[..|args| - 1]) + multiset{args[|args| - 1]}
  {
    assert args == args[..|args| - 1] + [args[|args| - 1]];
  }

  lemma IntoWords(rs: seq<Into>, ts: seq<Tok>)
    requires rs != [] && |ts| >= 2 && ts[|ts| - 2..] == [Sym(rs[|rs| - 1].c), Arg(rs[|rs| - 1].w)]
    ensures Spans(ts) == Spans(ts[..|ts| - 2]) + multiset{rs[|rs| - 1].w}
    ensures Spans(Rows(rs)) == Spans(Rows(rs[..|rs| - 1])) + multiset{rs[|rs| - 1].w}
  {
    var i, n := rs[|rs| - 1], |ts|;
    assert Rows(rs) == Rows(rs[..|rs| - 1]) + [Sym(i.c), Arg(i.w)];
    hide Rows, Spans;
    assert ts == ts[..n - 2] + [Sym(i.c), Arg(i.w)];
    SpansConcat(ts[..n - 2], [Sym(i.c), Arg(i.w)]);
    SpansTwo(i.c, i.w);
    SpansConcat(Rows(rs[..|rs| - 1]), [Sym(i.c), Arg(i.w)]);
  }

  /** A command tree holds exactly the words of its tokens. */
  lemma {:induction false} LineWords(t: Tree, ts: seq<Tok>)
    requires IsLine(t, ts)
    ensures TreeWords(t) == Spans(ts)
    decreases |ts|, 3
  {
    if IsBacks(t, ts) {
      BacksWords(t, ts);
    } else {
      var k :| 0 <= k < |ts| && ts[k] == Sym(';') && IsBacks(t.left, ts[..k]) && IsLine(t.right, ts[k + 1..]);
      BacksWords(t.left, ts[..k]);
      LineWords(t.right, ts[k + 1..]);
      SpansAround(ts, k);
    }
  }

  /** A symbol in the middle is no word. */
  lemma SpansAround(ts: seq<Tok>, k: nat)
    requires k < |ts| && ts[k].Sym?
    ensures Spans(ts) == Spans(ts[..k]) + Spans(ts[k + 1..])
  {
    assert ts == ts[..k] + ([ts[k]] + ts[k + 1..]);
    SpansConcat(ts[..k], [ts[k]] + ts[k + 1..]);
    SpansConcat([ts[k]], ts[k + 1..]);
    SpansOne(ts[k]);
  }

  lemma {:induction false} BacksWords(t: Tree, ts: seq<Tok>)
    requires IsBacks(t, ts)
    ensures TreeWords(t) == Spans(ts)
    decreases |ts|, 2
  {
    if IsPipe(t, ts) {
      PipeWords(t, ts);
    } else {
      BacksWords(t.cmd, ts[..|ts| - 1]);
    }
  }

  lemma {:induction false} PipeWords(t: Tree, ts: seq<Tok>)
    requires IsPipe(t, ts)
    ensures TreeWords(t) == Spans(ts)
    decreases |ts|, 1
  {
    if IsExec(t, ts) {
      ExecWords(t, ts);
    } else {
      var k :| 0 <= k < |ts| && ts[k] == Sym('|') && IsExec(t.left, ts[..k]) && IsPipe(t.right, ts[k + 1..]);
      ExecWords(t.left, ts[..k]);
      PipeWords(t.right, ts[k + 1..]);
      SpansAround(ts, k);
    }
  }

  lemma {:induction false} ExecWords(t: Tree, ts: seq<Tok>)
    requires IsExec(t, ts)
    ensures TreeWords(t) == Spans(ts)
    decreases |ts|, 0
  {
    if args: seq<Span>, rs: seq<Into> :| t == Wrap(TExec(args), rs) && Mix(args, rs, ts) {
      MixWords(args, rs, ts);
      WrapWords(TExec(args), rs);
    } else {
      var c: Tree, rs: seq<Into>, k: nat :| 1 <= k < |ts| && t == Wrap(c, rs)
        && ts[0] == Sym('(') && IsLine(c, ts[1..k])
        && ts[k] == Sym(')') && ts[k + 1..] == Rows(rs);
      LineWords(c, ts[1..k]);
      hide IsLine, IsExec;
      WrapWords(c, rs);
      ParensWords(ts, k);
    }
  }

  lemma ParensWords(ts: seq<Tok>, k: nat)
    requires 1 <= k < |ts| && ts[0].Sym? && ts[k].Sym?
    ensures Spans(ts) == Spans(ts[1..k]) + Spans(ts[k + 1..])
  {
    SpansAround(ts, k);
    SpansAround(ts[..k], 0);
    assert ts[..k][..0] == [] && ts[..k][1..] == ts[1..k];
  }

  // Building derivations.

  lemma PipeJoin(l: Tree, r: Tree, xs: seq<Tok>, ys: seq<Tok>)
    requires IsExec(l, xs) && IsPipe(r, ys)
    ensures IsPipe(TPipe(l, r), xs + [Sym('|')] + ys)
  {
    hide IsExec;
    var ts, k := xs + [Sym('|')] + ys, |xs|;
    assert ts[k] == Sym('|') && ts[..k] == xs && ts[k + 1..] == ys;
  }

  lemma ListJoin(l: Tree, r: Tree, xs: seq<Tok>, ys: seq<Tok>)
    requires IsBacks(l, xs) && IsLine(r, ys)
    ensures IsLine(TList(l, r), xs + [Sym(';')] + ys)
  {
    hide IsBacks;
    var ts, k := xs + [Sym(';')] + ys, |xs|;
    assert ts[k] == Sym(';') && ts[..k] == xs && ts[k + 1..] == ys;
  }

  lemma BackJoin(c: Tree, xs: seq<Tok>)
    requires IsBacks(c, xs)
    ensures IsBacks(TBack(c), xs + [Sym('&')])
  {
    hide IsPipe;
    assert (xs + [Sym('&')])[..|xs|] == xs;
  }

  lemma BlockJoin(c: Tree, xs: seq<Tok>, rs: seq<Into>)
    requires IsLine(c, xs) && forall r | r in rs :: r.Proper()
    ensures IsExec(Wrap(c, rs), [Sym('(')] + xs + [Sym(')')] + Rows(rs))
  {
    hide IsLine, Wrap, Rows;
    var ts, k := [Sym('(')] + xs + [Sym(')')] + Rows(rs), |xs| + 1;
    assert ts[0] == Sym('(') && ts[1..k] == xs && ts[k] == Sym(')') && ts[k + 1..] == Rows(rs);
  }

  lemma ArgsJoin(args: seq<Span>, rs: seq<Into>, ts: seq<Tok>)
    requires Mix(args, rs, ts)
    ensures IsExec(Wrap(TExec(args), rs), ts)
  {
    hide Mix, Wrap;
  }

  lemma MixArg(args: seq<Span>, rs: seq<Into>, ts: seq<Tok>, w: Span)
    requires Mix(args, rs, ts)
    ensures Mix(args + [w], rs, ts + [Arg(w)])
  {
    var a, t := args + [w], ts + [Arg(w)];
    assert a[..|args|] == args && t[..|ts|] == ts;
  }

  lemma MixInto(args: seq<Span>, rs: seq<Into>, ts: seq<Tok>, i: Into)
    requires Mix(args, rs, ts) && i.Proper()
    ensures Mix(args, rs + [i], ts + [Sym(i.c), Arg(i.w)])
  {
    var r, t := rs + [i], ts + [Sym(i.c), Arg(i.w)];
    assert r[..|rs|] == rs && t[..|ts|] == ts && t[|ts|..] == [Sym(i.c), Arg(i.w)];
  }

  lemma RowsSnoc(rs: seq<Into>)
    ensures Rows(rs) == if rs == [] then [] else Rows(rs[..|rs| - 1]) + [Sym(rs[|rs| - 1].c), Arg(rs[|rs| - 1].w)]
  {
  }

  lemma {:induction false} MixRows(args: seq<Span>, rs: seq<Into>, ts: seq<Tok>, more: seq<Into>)
    requires Mix(args, rs, ts) && forall r | r in more :: r.Proper()
    ensures Mix(args, rs + more, ts + Rows(more))
    decreases |more|
  {
    RowsSnoc(more);
    hide Mix, Rows;
    if more == [] {
      assert rs + more == rs && ts + Rows(more) == ts;
    } else {
      var n := |more| - 1;
      assert forall r | r in more[..n] :: r in more;
      MixRows(args, rs, ts, more[..n]);
      MixInto(args, rs + more[..n], ts + Rows(more[..n]), more[n]);
      assert rs + more[..n] + [more[n]] == rs + more;
      assert ts + Rows(more[..n]) + [Sym(more[n].c), Arg(more[n].w)] == ts + Rows(more);
    }
  }

  // What a redirection in a tree says, in terms of the tokens.

  /** Token i is an arrow and the next one its file: "<" is to be opened for reading as descriptor 0, ">" and ">>" for
      writing, and made if need be, as descriptor 1. */
  ghost predicate ArrowAt(ts: seq<Tok>, i: nat, w: Span, mode: int, fd: int) {
    && i + 1 < |ts| && ts[i + 1] == Arg(w)
    && if ts[i] == Sym('<') then mode == 0 && fd == 0
       else (ts[i] == Sym('>') || ts[i] == Sym('+')) && mode == 0x201 && fd == 1
  }

  /** Every redirection of the tree stands among the first hi tokens, one around another behind it. */
  ghost predicate Arrows(t: Tree, ts: seq<Tok>, hi: nat) {
    match t
    case TExec(_) => true
    case TRedir(c, w, mode, fd) => exists i: nat :: i < hi && ArrowAt(ts, i, w, mode, fd) && Arrows(c, ts, i)
    case TPipe(l, r) => Arrows(l, ts, hi) && Arrows(r, ts, hi)
    case TList(l, r) => Arrows(l, ts, hi) && Arrows(r, ts, hi)
    case TBack(c) => Arrows(c, ts, hi)
  }

  /** They stand in any stretch that holds the tokens, too. */
  lemma {:induction false} ArrowsIn(t: Tree, xs: seq<Tok>, h: nat, ts: seq<Tok>, a: nat, hi: nat)
    requires Arrows(t, xs, h) && a + |xs| <= |ts| && ts[a..a + |xs|] == xs && h + a <= hi
    ensures Arrows(t, ts, hi)
  {
    match t
    case TExec(_) =>
    case TRedir(c, w, mode, fd) =>
      var i: nat :| i < h && ArrowAt(xs, i, w, mode, fd) && Arrows(c, xs, i);
      assert ts[a + i] == xs[i] && (i + 1 < |xs| ==> ts[a + (i + 1)] == xs[i + 1]);
      ArrowsIn(c, xs, i, ts, a, a + i);
      assert ArrowAt(ts, a + i, w, mode, fd);
    case TPipe(l, r) =>
      ArrowsIn(l, xs, h, ts, a, hi);
      ArrowsIn(r, xs, h, ts, a, hi);
    case TList(l, r) =>
      ArrowsIn(l, xs, h, ts, a, hi);
      ArrowsIn(r, xs, h, ts, a, hi);
    case TBack(c) => ArrowsIn(c, xs, h, ts, a, hi);
  }

  /** One redirection more. */
  lemma ArrowsInto(t: Tree, ts: seq<Tok>, rs: seq<Into>)
    requires rs != [] && |ts| >= 2 && rs[|rs| - 1].Proper()
    requires ts[|ts| - 2..] == [Sym(rs[|rs| - 1].c), Arg(rs[|rs| - 1].w)]
    requires Arrows(Wrap(t, rs[..|rs| - 1]), ts[..|ts| - 2], |ts| - 2)
    ensures Arrows(Wrap(t, rs), ts, |ts|)
  {
    var n, i := |ts| - 2, rs[|rs| - 1];
    assert ts[0..0 + |ts[..n]|] == ts[..n];
    ArrowsIn(Wrap(t, rs[..|rs| - 1]), ts[..n], n, ts, 0, n);
    assert ts[n] == ts[n..][0] && ts[n + 1] == ts[n..][1];
    assert ArrowAt(ts, n, i.w, i.Mode(), i.Fd());
  }

  lemma {:induction false} MixArrows(args: seq<Span>, rs: seq<Into>, ts: seq<Tok>)
    requires Mix(args, rs, ts)
    ensures Arrows(Wrap(TExec(args), rs), ts, |ts|)
    decreases |ts|
  {
    hide Mix, Arrows, Wrap;
    MixParts(args, rs, ts);
    var n := |ts|;
    if n == 0 {
      NoArrows(args, ts);
    } else if n >= 2 && ts[n - 2].Sym? {
      MixArrows(args, rs[..|rs| - 1], ts[..n - 2]);
      ArrowsInto(TExec(args), ts, rs);
    } else {
      MixArrows(args[..|args| - 1], rs, ts[..n - 1]);
      assert ts[0..0 + |ts[..n - 1]|] == ts[..n - 1];
      ArrowsIn(Wrap(TExec(args[..|args| - 1]), rs), ts[..n - 1], n - 1, ts, 0, n);
      OtherArgs(args[..|args| - 1], args, rs, ts, n);
    }
  }

  lemma NoArrows(args: seq<Span>, ts: seq<Tok>)
    ensures Arrows(Wrap(TExec(args), []), ts, |ts|)
  {
  }

  lemma {:induction false} OtherArgs(args: seq<Span>, more: seq<Span>, rs: seq<Into>, ts: seq<Tok>, hi: nat)
    requires Arrows(Wrap(TExec(args), rs), ts, hi)
    ensures Arrows(Wrap(TExec(more), rs), ts, hi)
    decreases |rs|
  {
    if rs != [] {
      var r := rs[|rs| - 1];
      var i: nat :| i < hi && ArrowAt(ts, i, r.w, r.Mode(), r.Fd()) && Arrows(Wrap(TExec(args), rs[..|rs| - 1]), ts, i);
      OtherArgs(args, more, rs[..|rs| - 1], ts, i);
    }
  }

  /** The redirections behind a block. */
  lemma {:induction false} RowsArrows(c: Tree, rs: seq<Into>, xs: seq<Tok>)
    requires Arrows(c, xs, |xs|) && forall r | r in rs :: r.Proper()
    ensures Arrows(Wrap(c, rs), xs + Rows(rs), |xs + Rows(rs)|)
    decreases |rs|
  {
    RowsSnoc(rs);
    if rs == [] {
      assert xs + Rows(rs) == xs;
    } else {
      var n := |rs| - 1;
      hide Arrows, Wrap, Rows;
      assert rs[n] in rs && forall r | r in rs[..n] :: r in rs;
      RowsArrows(c, rs[..n], xs);
      var ts := xs + Rows(rs);
      assert ts[..|ts| - 2] == xs + Rows(rs[..n]);
      assert ts[|ts| - 2..] == [Sym(rs[n].c), Arg(rs[n].w)];
      ArrowsInto(c, ts, rs);
    }
  }

  /** Every redirection of a derived tree is an arrow and a file among its tokens, with the descriptor and the mode of
      the arrow, and of several around one command the outermost comes last. */
  lemma {:induction false} LineArrows(t: Tree, ts: seq<Tok>)
    requires IsLine(t, ts)
    ensures Arrows(t, ts, |ts|)
    decreases |ts|, 3
  {
    hide Arrows;
    if IsBacks(t, ts) {
      BacksArrows(t, ts);
    } else {
      var k :| 0 <= k < |ts| && ts[k] == Sym(';') && IsBacks(t.left, ts[..k]) && IsLine(t.right, ts[k + 1..]);
      BacksArrows(t.left, ts[..k]);
      LineArrows(t.right, ts[k + 1..]);
      TwoSides(t.left, t.right, ts, k);
      BothArrows(t.left, t.right, ts, |ts|);
    }
  }

  lemma TwoSides(l: Tree, r: Tree, ts: seq<Tok>, k: nat)
    requires k < |ts| && Arrows(l, ts[..k], k) && Arrows(r, ts[k + 1..], |ts| - k - 1)
    ensures Arrows(l, ts, |ts|) && Arrows(r, ts, |ts|)
  {
    hide Arrows;
    assert ts[0..0 + |ts[..k]|] == ts[..k] && ts[k + 1..k + 1 + |ts[k + 1..]|] == ts[k + 1..];
    ArrowsIn(l, ts[..k], k, ts, 0, |ts|);
    ArrowsIn(r, ts[k + 1..], |ts| - k - 1, ts, k + 1, |ts|);
  }

  lemma BothArrows(l: Tree, r: Tree, ts: seq<Tok>, hi: nat)
    requires Arrows(l, ts, hi) && Arrows(r, ts, hi)
    ensures Arrows(TList(l, r), ts, hi) && Arrows(TPipe(l, r), ts, hi) && Arrows(TBack(l), ts, hi)
  {
  }

  lemma {:induction false} BacksArrows(t: Tree, ts: seq<Tok>)
    requires IsBacks(t, ts)
    ensures Arrows(t, ts, |ts|)
    decreases |ts|, 2
  {
    hide Arrows;
    if IsPipe(t, ts) {
      PipeArrows(t, ts);
    } else {
      var n := |ts| - 1;
      BacksArrows(t.cmd, ts[..n]);
      assert ts[0..0 + |ts[..n]|] == ts[..n];
      ArrowsIn(t.cmd, ts[..n], n, ts, 0, |ts|);
      BothArrows(t.cmd, t.cmd, ts, |ts|);
    }
  }

  lemma {:induction false} PipeArrows(t: Tree, ts: seq<Tok>)
    requires IsPipe(t, ts)
    ensures Arrows(t, ts, |ts|)
    decreases |ts|, 1
  {
    hide Arrows;
    if IsExec(t, ts) {
      ExecArrows(t, ts);
    } else {
      var k :| 0 <= k < |ts| && ts[k] == Sym('|') && IsExec(t.left, ts[..k]) && IsPipe(t.right, ts[k + 1..]);
      ExecArrows(t.left, ts[..k]);
      PipeArrows(t.right, ts[k + 1..]);
      TwoSides(t.left, t.right, ts, k);
      BothArrows(t.left, t.right, ts, |ts|);
    }
  }

  lemma {:induction false} ExecArrows(t: Tree, ts: seq<Tok>)
    requires IsExec(t, ts)
    ensures Arrows(t, ts, |ts|)
    decreases |ts|, 0
  {
    hide Arrows, Mix, Wrap, Rows;
    if args: seq<Span>, rs: seq<Into> :| t == Wrap(TExec(args), rs) && Mix(args, rs, ts) {
      MixArrows(args, rs, ts);
    } else {
      var c: Tree, rs: seq<Into>, k: nat :| 1 <= k < |ts| && t == Wrap(c, rs)
        && ts[0] == Sym('(') && IsLine(c, ts[1..k])
        && ts[k] == Sym(')') && ts[k + 1..] == Rows(rs) && forall r | r in rs :: r.Proper();
      LineArrows(c, ts[1..k]);
      hide IsExec, IsLine;
      var xs := ts[..k + 1];
      assert xs[1..1 + |ts[1..k]|] == ts[1..k];
      ArrowsIn(c, ts[1..k], k - 1, xs, 1, |xs|);
      RowsArrows(c, rs, xs);
      assert xs + Rows(rs) == ts;
    }
  }
}
