/** sh.c: the tokenizer, the recursive-descent parser, and nulterminate. The cursor *ps is passed in and handed back. */
module Sh {
  import opened ShWords
  import opened ShGrammar
  import opened ShAccept
  import opened ShUnique

  /** execcmd: the argument pointers, -1 standing for the null pointer. */
  class ExecCmd {
    const argv: array<int>
    const eargv: array<int>
    ghost var words: seq<Span>

    ghost predicate Valid()
      reads this, argv, eargv
    {
      && argv.Length == MAXARGS == eargv.Length && argv != eargv && |words| < MAXARGS
      && (forall i | 0 <= i < |words| :: argv[i] == words[i].q && eargv[i] == words[i].e)
      && (forall i | |words| <= i < MAXARGS :: argv[i] == -1)
    }

    constructor ()
      ensures Valid() && words == [] && fresh(argv) && fresh(eargv)
    {
      argv, eargv, words := new int[MAXARGS](_ => -1), new int[MAXARGS](_ => -1), [];
    }

    /** One more argument; the node is of no use once it is full. */
    method Add(argc0: nat, q: nat, eq: nat) returns (argc: nat)
      requires Valid() && argc0 == |words|
      modifies this`words, argv, eargv
      ensures argc == argc0 + 1
      ensures argc < MAXARGS ==> Valid() && words == old(words) + [Span(q, eq)]
    {
      argv[argc0] := q;
      eargv[argc0] := eq;
      argc := argc0 + 1;
      words := words + [Span(q, eq)];
    }
  }

  datatype Cmd =
    | Exec(x: ExecCmd)
    | Redir(cmd: Cmd, file: nat, efile: nat, mode: int, fd: int)
    | Pipe(left: Cmd, right: Cmd)
    | List(left: Cmd, right: Cmd)
    | Back(cmd: Cmd)

  /** What the tree's argument vectors live in. */
  ghost function Objs(t: Cmd): set<object> {
    match t
    case Exec(x) => {x, x.argv, x.eargv}
    case Redir(c, _, _, _, _) => Objs(c)
    case Pipe(l, r) => Objs(l) + Objs(r)
    case List(l, r) => Objs(l) + Objs(r)
    case Back(c) => Objs(c)
  }

  ghost predicate Sound(t: Cmd)
    reads Objs(t)
  {
    match t
    case Exec(x) => x.Valid()
    case Redir(c, _, _, _, _) => Sound(c)
    case Pipe(l, r) => Sound(l) && Sound(r)
    case List(l, r) => Sound(l) && Sound(r)
    case Back(c) => Sound(c)
  }

  /** The tree as a value. */
  ghost function View(t: Cmd): Tree
    reads Objs(t)
  {
    match t
    case Exec(x) => TExec(x.words)
    case Redir(c, q, e, mode, fd) => TRedir(View(c), Span(q, e), mode, fd)
    case Pipe(l, r) => TPipe(View(l), View(r))
    case List(l, r) => TList(View(l), View(r))
    case Back(c) => TBack(View(c))
  }

  /** A tree under redirections, the first innermost. */
  function WrapCmd(t: Cmd, rs: seq<Into>): Cmd
    decreases |rs|
  {
    if rs == [] then t
    else var i := rs[|rs| - 1]; Redir(WrapCmd(t, rs[..|rs| - 1]), i.w.q, i.w.e, i.Mode(), i.Fd())
  }

  lemma {:induction false} WrapView(t: Cmd, rs: seq<Into>)
    ensures Objs(WrapCmd(t, rs)) == Objs(t) && Sound(WrapCmd(t, rs)) == Sound(t)
    ensures View(WrapCmd(t, rs)) == Wrap(View(t), rs)
    decreases |rs|
  {
    if rs != [] {
      WrapView(t, rs[..|rs| - 1]);
    }
  }

  lemma {:induction false} WrapTwice(t: Cmd, rs: seq<Into>, more: seq<Into>)
    ensures WrapCmd(WrapCmd(t, rs), more) == WrapCmd(t, rs + more)
    decreases |more|
  {
    if more == [] {
      assert rs + more == rs;
    } else {
      WrapTwice(t, rs, more[..|more| - 1]);
      assert (rs + more)[..|rs + more| - 1] == rs + more[..|more| - 1];
    }
  }

  /** A command, or the parser's panic. */
  datatype Parsed = Done(cmd: Cmd) | Panic

  method SkipWhite(line: string, s0: nat) returns (s: nat)
    requires s0 <= |line|
    ensures Blank(line, s0, s) && (s < |line| ==> !White(line[s]))
  {
    s := s0;
    while s < |line| && White(line[s])
      invariant Blank(line, s0, s)
    {
      s := s + 1;
    }
  }

  /** The token gettoken stands for by what it returns. */
  function Taken(ret: char, q: nat, eq: nat): Tok {
    if ret == 'a' then Arg(Span(q, eq)) else Sym(ret)
  }

  /** gettoken: the first of the tokens to come, and the position before the others; NUL when there are none. */
  method Gettoken(line: string, s0: nat, ghost us: seq<Tok>) returns (ret: char, q: nat, eq: nat, s: nat)
    requires Lexed(line, s0, |line|, us) && NUL !in line
    ensures s0 <= s <= |line| && (ret == NUL <==> us == []) && (us == [] ==> s == |line|)
    ensures us != [] ==> s0 < s && us[0] == Taken(ret, q, eq)
    ensures Lexed(line, s, |line|, if us == [] then [] else us[1..])
  {
    hide Lexed, Word;
    LexedBounds(line, s0, |line|, us);
    s := SkipWhite(line, s0);
    q := s;
    LexedSkip(line, s0, q, us);
    ghost var e: nat;
    if us != [] {
      e := FirstAt(line, q, us);
    }
    ret, s := Scan(line, s, if us == [] then Sym(NUL) else us[0], if us == [] then q else e);
    eq := s;
    s := SkipWhite(line, eq);
    LexedSkip(line, eq, s, if us == [] then [] else us[1..]);
  }

  /** The switch of gettoken takes the token that is there. */
  method Scan(line: string, q: nat, ghost t: Tok, ghost e: nat) returns (ret: char, s: nat)
    requires q <= |line| && NUL !in line && (q < |line| ==> !White(line[q]))
    requires if q == |line| then e == q else q < e <= |line| && TokAt(line, q, e, t)
    ensures s == e && (ret == NUL <==> q == |line|)
    ensures q < |line| ==> t == Taken(ret, q, s)
  {
    s := q;
    ret := Ch(line, s);
    assert q < |line| ==> line[q] in line;
    if ret == NUL {
    } else if ret in "|();&<" {
      s := s + 1;
      SymbolHere(line, q, e, t);
    } else if ret == '>' {
      s := s + 1;
      SymbolHere(line, q, e, t);
      if Ch(line, s) == '>' {
        ret := '+';
        s := s + 1;
      }
    } else {
      ret := 'a';
      WordHere(line, q, e, t);
      while s < |line| && !White(line[s]) && !Symbol(line[s])
        invariant q <= s <= e && forall k | q <= k < s :: Plain(line[k])
        decreases e - s
      {
        s := s + 1;
      }
    }
  }

  lemma SymbolHere(line: string, q: nat, e: nat, t: Tok)
    requires TokAt(line, q, e, t) && q < |line| && Symbol(line[q])
    ensures t.Sym?
    ensures if line[q] == '>' && Ch(line, q + 1) == '>' then t.c == '+' && e == q + 2 else t.c == line[q] && e == q + 1
  {
    TokFirst(line, q, e, t);
  }

  lemma WordHere(line: string, q: nat, e: nat, t: Tok)
    requires TokAt(line, q, e, t) && q < |line| && !Symbol(line[q])
    ensures t == Arg(Span(q, e)) && (forall k | q <= k < e :: Plain(line[k])) && (e < |line| ==> !Plain(line[e]))
  {
    TokFirst(line, q, e, t);
  }

  /** White space in front of the tokens to come can be passed. */
  lemma LexedSkip(line: string, a: nat, b: nat, us: seq<Tok>)
    requires Lexed(line, a, |line|, us) && Blank(line, a, b)
    ensures Lexed(line, b, |line|, us)
    ensures us == [] && (b < |line| ==> !White(line[b])) ==> b == |line|
    ensures us != [] ==> b < |line|
  {
    if us == [] {
      assert b < |line| ==> White(line[b]);
    } else {
      var q, e := LexedHead(line, a, |line|, us);
      TokFirst(line, q, e, us[0]);
      hide Lexed;
      LexedCons(line, b, q, e, |line|, us[0], us[1..]);
      assert [us[0]] + us[1..] == us;
    }
  }

  /** With no white space in front, the first token is here. */
  lemma FirstAt(line: string, q: nat, us: seq<Tok>) returns (e: nat)
    requires us != [] && Lexed(line, q, |line|, us) && q < |line| && !White(line[q])
    ensures q < e <= |line| && TokAt(line, q, e, us[0]) && Lexed(line, e, |line|, us[1..])
  {
    var p;
    p, e := LexedHead(line, q, |line|, us);
    hide Lexed, TokAt;
  }

  /** The character a symbol starts with. */
  function Lead(c: char): char { if c == '+' then '>' else c }

  /** peek: past white space, whether the next token starts with one of these symbols. */
  method Peek(line: string, s0: nat, ghost us: seq<Tok>, toks: string) returns (r: bool, s: nat)
    requires Lexed(line, s0, |line|, us) && forall c | c in toks :: Symbol(c)
    ensures s0 <= s <= |line| && Lexed(line, s, |line|, us) && (us == [] ==> s == |line|)
    ensures r <==> us != [] && us[0].Sym? && Lead(us[0].c) in toks
  {
    LexedBounds(line, s0, |line|, us);
    s := SkipWhite(line, s0);
    LexedSkip(line, s0, s, us);
    if us != [] {
      ghost var e := FirstAt(line, s, us);
      TokFirst(line, s, e, us[0]);
    }
    hide Lexed;
    r := s < |line| && line[s] in toks;
  }

  /** What each parsing function does with the tokens to come: it passes the first m of them. */
  twostate predicate Passed(line: string, s0: nat, us: seq<Tok>, new r: Parsed, s: nat, m: nat)
    reads if r.Done? then Objs(r.cmd) else {}
  {
    r.Done? ==> s0 <= s <= |line| && m <= |us| && Lexed(line, s, |line|, us[m..])
                && fresh(Objs(r.cmd)) && Sound(r.cmd) && Small(View(r.cmd))
  }

  method Parseline(line: string, s0: nat, ghost us: seq<Tok>) returns (r: Parsed, s: nat, ghost m: nat)
    requires Lexed(line, s0, |line|, us) && NUL !in line
    ensures Passed(line, s0, us, r, s, m)
    ensures r.Done? ==> allocated(Objs(r.cmd)) && IsLine(View(r.cmd), us[..m])
    ensures forall n: nat | CanLine(us, n) :: r.Done? && m == n
    decreases |us|, 5
  {
    hide View, Sound, Objs, Lexed, IsLine, IsBacks, CanLine, CanBacks, Small;
    r, s, m := Parsebacks(line, s0, us);
    LinesAfter(us, r.Done?, m);
    if r.Panic? { return; }
    BacksLine(View(r.cmd), us[..m]);
    var b, t, q, eq;
    b, s := Peek(line, s, us[m..], ";");
    if b {
      t, q, eq, s := Gettoken(line, s, us[m..]);
      assert us[m..][1..] == us[m + 1..];
      var rest;
      ghost var j;
      rest, s, j := Parseline(line, s, us[m + 1..]);
      NextLine(us, m, us[m + 1..], rest.Done?, j);
      if rest.Panic? { return Panic, s, m; }
      assert us[m + 1..][j..] == us[m + 1 + j..];
      ListView(r.cmd, rest.cmd);
      ListJoin(View(r.cmd), View(rest.cmd), us[..m], us[m + 1..][..j]);
      assert us[..m] + [Sym(';')] + us[m + 1..][..j] == us[..m + 1 + j];
      r, m := Done(List(r.cmd, rest.cmd)), m + 1 + j;
    } else {
      LastLine(us, m);
    }
  }

  lemma BacksLine(t: Tree, ts: seq<Tok>)
    requires IsBacks(t, ts)
    ensures IsLine(t, ts)
  {
    hide IsBacks;
  }

  /** A line the tokens could begin, given where its first part ends. */
  ghost predicate LineFrom(us: seq<Tok>, n: nat, m: nat) {
    (n == m && m <= |us| && End(us[m..], ";)")) || (m < n && m < |us| && us[m] == Sym(';')
      && CanLine(us[m + 1..], n - m - 1))
  }

  lemma LinesAfter(us: seq<Tok>, done: bool, m: nat)
    requires forall n: nat | CanBacks(us, n) :: done && m == n
    ensures forall n: nat | CanLine(us, n) :: done && LineFrom(us, n, m)
  {
    hide CanLine, IsBacks;
    forall n: nat | CanLine(us, n) ensures done && LineFrom(us, n, m) {
      LineAfter(us, n);
    }
  }

  lemma NextLine(us: seq<Tok>, m: nat, vs: seq<Tok>, done: bool, j: nat)
    requires m < |us| && us[m] == Sym(';') && vs == us[m + 1..] && forall n: nat | CanLine(us, n) :: LineFrom(us, n, m)
    requires forall n: nat | CanLine(vs, n) :: done && j == n
    ensures forall n: nat | CanLine(us, n) :: done && m + 1 + j == n
  {
    LineEnds(us, m);
    hide CanLine;
    forall n: nat | CanLine(us, n) ensures done && m + 1 + j == n {
      assert LineFrom(us, n, m);
    }
  }

  /** A line never ends just before a semicolon. */
  lemma LineEnds(us: seq<Tok>, m: nat)
    requires m < |us| && us[m] == Sym(';')
    ensures !CanLine(us, m)
  {
    hide IsLine;
    assert us[m..][0] == us[m];
  }

  lemma LastLine(us: seq<Tok>, m: nat)
    requires m <= |us| && !(us[m..] != [] && us[m..][0].Sym? && Lead(us[m..][0].c) == ';')
    requires forall n: nat | CanLine(us, n) :: LineFrom(us, n, m)
    ensures forall n: nat | CanLine(us, n) :: m == n
  {
    hide CanLine;
    assert m < |us| ==> us[m..][0] == us[m];
    forall n: nat | CanLine(us, n) ensures m == n {
      assert LineFrom(us, n, m);
    }
  }

  lemma ListView(l: Cmd, r: Cmd)
    ensures Objs(List(l, r)) == Objs(l) + Objs(r) && View(List(l, r)) == TList(View(l), View(r))
    ensures Sound(List(l, r)) == (Sound(l) && Sound(r)) && Small(View(List(l, r))) == (Small(View(l)) && Small(View(r)))
  {
  }

  /** The first half of parseline: a pipeline and its '&'s. */
  method Parsebacks(line: string, s0: nat, ghost us: seq<Tok>) returns (r: Parsed, s: nat, ghost m: nat)
    requires Lexed(line, s0, |line|, us) && NUL !in line
    ensures Passed(line, s0, us, r, s, m)
    ensures r.Done? ==> allocated(Objs(r.cmd)) && IsBacks(View(r.cmd), us[..m])
    ensures forall n: nat | CanBacks(us, n) :: r.Done? && m == n
    decreases |us|, 4
  {
    hide View, Sound, Objs, Lexed, IsPipe, IsBacks, CanPipe, CanBacks, Small;
    r, s, m := Parsepipe(line, s0, us);
    BacksFrom(us, r.Done?, m);
    if r.Panic? { return; }
    var cmd := r.cmd;
    PipeBacks(View(cmd), us[..m]);
    var b, t, q, eq;
    b, s := Peek(line, s, us[m..], "&");
    while b
      invariant s0 <= s <= |line| && m <= |us| && Lexed(line, s, |line|, us[m..])
      invariant b <==> m < |us| && us[m] == Sym('&')
      invariant fresh(Objs(cmd)) && allocated(Objs(cmd)) && Sound(cmd) && Small(View(cmd))
      invariant IsBacks(View(cmd), us[..m])
      invariant forall n: nat | CanBacks(us, n) :: m <= n <= |us| && forall j | m <= j < n :: us[j] == Sym('&')
      decreases |us| - m
    {
      t, q, eq, s := Gettoken(line, s, us[m..]);
      assert us[m..][1..] == us[m + 1..];
      BackView(cmd);
      BackJoin(View(cmd), us[..m]);
      assert us[..m] + [Sym('&')] == us[..m + 1];
      BacksMore(us, m);
      cmd, m := Back(cmd), m + 1;
      b, s := Peek(line, s, us[m..], "&");
    }
    return Done(cmd), s, m;
  }

  lemma PipeBacks(t: Tree, ts: seq<Tok>)
    requires IsPipe(t, ts)
    ensures IsBacks(t, ts)
  {
    hide IsPipe;
  }

  lemma BacksFrom(us: seq<Tok>, done: bool, m: nat)
    requires forall n: nat | CanPipe(us, n) :: done && m == n
    ensures forall n: nat | CanBacks(us, n) :: done && m <= n <= |us| && forall j | m <= j < n :: us[j] == Sym('&')
  {
    forall n: nat | CanBacks(us, n) ensures done && m <= n <= |us| && forall j | m <= j < n :: us[j] == Sym('&') {
      BacksAfter(us, n);
    }
  }

  /** Backs never end just before an ampersand. */
  lemma BacksMore(us: seq<Tok>, m: nat)
    requires m < |us| && us[m] == Sym('&')
    ensures !CanBacks(us, m)
  {
    hide IsBacks;
    assert us[m..][0] == us[m];
  }

  lemma BackView(c: Cmd)
    ensures Objs(Back(c)) == Objs(c) && View(Back(c)) == TBack(View(c)) && Sound(Back(c)) == Sound(c)
    ensures Small(View(Back(c))) == Small(View(c))
  {
  }

  method Parsepipe(line: string, s0: nat, ghost us: seq<Tok>) returns (r: Parsed, s: nat, ghost m: nat)
    requires Lexed(line, s0, |line|, us) && NUL !in line
    ensures Passed(line, s0, us, r, s, m)
    ensures r.Done? ==> allocated(Objs(r.cmd)) && IsPipe(View(r.cmd), us[..m])
    ensures forall n: nat | CanPipe(us, n) :: r.Done? && m == n
    decreases |us|, 3
  {
    hide View, Sound, Objs, Lexed, IsPipe, IsExec, CanPipe, CanExec, Small;
    r, s, m := Parseexec(line, s0, us);
    PipesAfter(us, r.Done?, m);
    if r.Panic? { return; }
    ExecPipe(View(r.cmd), us[..m]);
    var b, t, q, eq;
    b, s := Peek(line, s, us[m..], "|");
    if b {
      t, q, eq, s := Gettoken(line, s, us[m..]);
      assert us[m..][1..] == us[m + 1..];
      var rest;
      ghost var j;
      rest, s, j := Parsepipe(line, s, us[m + 1..]);
      NextPipe(us, m, us[m + 1..], rest.Done?, j);
      if rest.Panic? { return Panic, s, m; }
      assert us[m + 1..][j..] == us[m + 1 + j..];
      PipeView(r.cmd, rest.cmd);
      PipeJoin(View(r.cmd), View(rest.cmd), us[..m], us[m + 1..][..j]);
      assert us[..m] + [Sym('|')] + us[m + 1..][..j] == us[..m + 1 + j];
      r, m := Done(Pipe(r.cmd, rest.cmd)), m + 1 + j;
    } else {
      LastPipe(us, m);
    }
  }

  lemma ExecPipe(t: Tree, ts: seq<Tok>)
    requires IsExec(t, ts)
    ensures IsPipe(t, ts)
  {
    hide IsExec;
  }

  ghost predicate PipeFrom(us: seq<Tok>, n: nat, m: nat) {
    (n == m && m <= |us| && End(us[m..], "|&;)")) || (m < n && m < |us| && us[m] == Sym('|')
      && CanPipe(us[m + 1..], n - m - 1))
  }

  lemma PipesAfter(us: seq<Tok>, done: bool, m: nat)
    requires forall n: nat | CanExec(us, n) :: done && m == n
    ensures forall n: nat | CanPipe(us, n) :: done && PipeFrom(us, n, m)
  {
    hide CanPipe, IsExec;
    forall n: nat | CanPipe(us, n) ensures done && PipeFrom(us, n, m) {
      PipeAfter(us, n);
    }
  }

  lemma NextPipe(us: seq<Tok>, m: nat, vs: seq<Tok>, done: bool, j: nat)
    requires m < |us| && us[m] == Sym('|') && vs == us[m + 1..] && forall n: nat | CanPipe(us, n) :: PipeFrom(us, n, m)
    requires forall n: nat | CanPipe(vs, n) :: done && j == n
    ensures forall n: nat | CanPipe(us, n) :: done && m + 1 + j == n
  {
    PipeEnds(us, m);
    hide CanPipe;
    forall n: nat | CanPipe(us, n) ensures done && m + 1 + j == n {
      assert PipeFrom(us, n, m);
    }
  }

  /** A pipeline never ends just before a bar. */
  lemma PipeEnds(us: seq<Tok>, m: nat)
    requires m < |us| && us[m] == Sym('|')
    ensures !CanPipe(us, m)
  {
    hide IsPipe;
    assert us[m..][0] == us[m];
  }

  lemma LastPipe(us: seq<Tok>, m: nat)
    requires m <= |us| && !(us[m..] != [] && us[m..][0].Sym? && Lead(us[m..][0].c) == '|')
    requires forall n: nat | CanPipe(us, n) :: PipeFrom(us, n, m)
    ensures forall n: nat | CanPipe(us, n) :: m == n
  {
    hide CanPipe;
    assert m < |us| ==> us[m..][0] == us[m];
    forall n: nat | CanPipe(us, n) ensures m == n {
      assert PipeFrom(us, n, m);
    }
  }

  lemma PipeView(l: Cmd, r: Cmd)
    ensures Objs(Pipe(l, r)) == Objs(l) + Objs(r) && View(Pipe(l, r)) == TPipe(View(l), View(r))
    ensures Sound(Pipe(l, r)) == (Sound(l) && Sound(r)) && Small(View(Pipe(l, r))) == (Small(View(l)) && Small(View(r)))
  {
  }

  /** The first n tokens are arguments and redirections, and those from m on are still to come. */
  ghost predicate Ahead(us: seq<Tok>, n: nat, m: nat) {
    m <= n <= |us| && Forward(us[m..n]) && End(us[n..], "|&;)")
  }

  /** parseredirs wraps cmd in one redirection for each it passes. */
  method Parseredirs(line: string, cmd0: Cmd, s0: nat, ghost us: seq<Tok>)
    returns (r: Parsed, s: nat, ghost rs: seq<Into>)
    requires Lexed(line, s0, |line|, us) && NUL !in line
    ensures r.Done? ==> s0 <= s <= |line| && |Rows(rs)| <= |us| && Lexed(line, s, |line|, us[|Rows(rs)|..])
    ensures r.Done? ==> r.cmd == WrapCmd(cmd0, rs) && us[..|Rows(rs)|] == Rows(rs) && forall i | i in rs :: i.Proper()
    ensures r.Done? ==> |Rows(rs)| < |us| ==> !Arrow(us[|Rows(rs)|])
    ensures forall n: nat | Ahead(us, n, 0) ::
      r.Done? && Ahead(us, n, |Rows(rs)|) && Plains(us[|Rows(rs)|..n]) == Plains(us[..n])
  {
    hide Lexed, WrapCmd, Rows, Forward, Plains;
    var cmd := cmd0;
    var b;
    rs := [];
    ghost var m := 0;
    NoRows(cmd0, us);
    b, s := Peek(line, s0, us, "<>");
    while b
      invariant s0 <= s <= |line| && m == |Rows(rs)| <= |us| && Lexed(line, s, |line|, us[m..])
      invariant b <==> m < |us| && Arrow(us[m])
      invariant cmd == WrapCmd(cmd0, rs) && us[..m] == Rows(rs) && forall i | i in rs :: i.Proper()
      invariant forall n: nat | Ahead(us, n, 0) :: Ahead(us, n, m) && Plains(us[m..n]) == Plains(us[..n])
      decreases |us| - m
    {
      AheadTwo(us, m);
      var tok, q, eq, a;
      tok, q, eq, s := Gettoken(line, s, us[m..]);
      assert us[m..][1..] == us[m + 1..];
      a, q, eq, s := Gettoken(line, s, us[m + 1..]);
      if a != 'a' {
        assert forall n: nat | Ahead(us, n, 0) :: Ahead(us, n, m) && m + 1 < |us| && us[m + 1].Arg?;
        return Panic, s, rs;
      }
      assert us[m + 1..][1..] == us[m + 2..];
      if tok == '<' {
        cmd := Redir(cmd, q, eq, O_RDONLY, 0);
      } else if tok == '>' {
        cmd := Redir(cmd, q, eq, O_WRONLY + O_CREATE, 1);
      } else if tok == '+' {
        cmd := Redir(cmd, q, eq, O_WRONLY + O_CREATE, 1);
      }
      RowMore(cmd0, rs, Into(tok, Span(q, eq)));
      assert us[..m + 2] == us[..m] + [Sym(tok)] + [Arg(Span(q, eq))];
      rs, m := rs + [Into(tok, Span(q, eq))], m + 2;
      b, s := Peek(line, s, us[m..], "<>");
    }
    return Done(cmd), s, rs;
  }

  lemma NoRows(t: Cmd, us: seq<Tok>)
    ensures Rows([]) == [] && WrapCmd(t, []) == t && us[0..] == us && us[..0] == []
    ensures forall n: nat | 0 <= n <= |us| :: us[0..n] == us[..n]
  {
  }

  lemma RowMore(t: Cmd, rs: seq<Into>, i: Into)
    ensures Rows(rs + [i]) == Rows(rs) + [Sym(i.c)] + [Arg(i.w)]
    ensures WrapCmd(t, rs + [i]) == Redir(WrapCmd(t, rs), i.w.q, i.w.e, i.Mode(), i.Fd())
  {
    assert (rs + [i])[..|rs|] == rs;
    assert [Sym(i.c)] + [Arg(i.w)] == [Sym(i.c), Arg(i.w)];
  }

  /** An arrow ahead is followed by its file. */
  lemma AheadTwo(us: seq<Tok>, m: nat)
    requires m < |us| && Arrow(us[m])
    ensures forall n: nat | Ahead(us, n, m) ::
      m + 2 <= n && us[m + 1].Arg? && Ahead(us, n, m + 2) && Plains(us[m + 2..n]) == Plains(us[m..n])
  {
    forall n: nat | Ahead(us, n, m)
      ensures m + 2 <= n && us[m + 1].Arg? && Ahead(us, n, m + 2) && Plains(us[m + 2..n]) == Plains(us[m..n]) {
      FirstOf(us, m);
      var ts := us[m..n];
      assert |ts| >= 2 ==> ts[2..] == us[m + 2..n] && ts[1] == us[m + 1];
    }
  }

  method Parseblock(line: string, s0: nat, ghost us: seq<Tok>) returns (r: Parsed, s: nat, ghost m: nat)
    requires Lexed(line, s0, |line|, us) && NUL !in line && us != [] && us[0] == Sym('(')
    ensures Passed(line, s0, us, r, s, m)
    ensures r.Done? ==> allocated(Objs(r.cmd)) && IsExec(View(r.cmd), us[..m])
    ensures forall n: nat, k: nat | CanBlock(us, n, k) :: r.Done? && m == n
    decreases |us|, 1
  {
    hide View, Sound, Objs, Lexed, IsLine, IsExec, WrapCmd, Rows, CanBlock, Small, Ahead;
    r, s, m := Parseparens(line, s0, us);
    if r.Panic? { return; }
    ghost var cmd, rs, k, vs := r.cmd, [], m - 1, us[m..];
    BlockAhead(us, k, vs);
    r, s, rs := Parseredirs(line, r.cmd, s, vs);
    BlockOver(us, k, vs, |Rows(rs)|, r.Done?);
    if r.Done? {
      m := m + |Rows(rs)|;
      assert vs[|Rows(rs)|..] == us[m..];
      WrapView(cmd, rs);
      WrapSmall(View(cmd), rs);
      BlockJoin(View(cmd), us[1..k], rs);
      assert us[..m] == [Sym('(')] + us[1..k] + [Sym(')')] + vs[..|Rows(rs)|];
    }
  }

  /** What may follow a closing parenthesis. */
  lemma BlockAhead(us: seq<Tok>, k: nat, vs: seq<Tok>)
    requires k < |us| && vs == us[k + 1..]
    ensures forall n: nat | CanBlock(us, n, k) :: k < n && Ahead(vs, n - k - 1, 0) && Plains(vs[..n - k - 1]) == 0
  {
    hide CanLine;
    forall n: nat | CanBlock(us, n, k) ensures k < n && Ahead(vs, n - k - 1, 0) && Plains(vs[..n - k - 1]) == 0 {
      var z := n - k - 1;
      assert vs[0..z] == us[k + 1..n] && vs[..z] == us[k + 1..n] && vs[z..] == us[n..];
    }
  }

  lemma BlockOver(us: seq<Tok>, k: nat, vs: seq<Tok>, x: nat, done: bool)
    requires done && x < |vs| ==> !Arrow(vs[x])
    requires forall n: nat | CanBlock(us, n, k) :: k < n && Ahead(vs, n - k - 1, 0) && Plains(vs[..n - k - 1]) == 0
    requires forall n: nat | Ahead(vs, n, 0) :: done && Ahead(vs, n, x) && Plains(vs[x..n]) == Plains(vs[..n])
    requires forall n: nat, j: nat | CanBlock(us, n, j) :: j == k
    ensures forall n: nat, j: nat | CanBlock(us, n, j) :: done && n == k + 1 + x
  {
    hide CanBlock;
    forall n: nat, j: nat | CanBlock(us, n, j) ensures done && n == k + 1 + x {
      assert CanBlock(us, n, k);
      var z := n - k - 1;
      assert Ahead(vs, z, 0) && Plains(vs[..z]) == 0;
      assert Ahead(vs, z, x) && Plains(vs[x..z]) == 0;
      NothingAhead(vs, x, z);
    }
  }

  /** Arguments and redirections that start with no arrow and hold no argument are none. */
  lemma NothingAhead(vs: seq<Tok>, x: nat, z: nat)
    requires Ahead(vs, z, x) && Plains(vs[x..z]) == 0 && (x < |vs| ==> !Arrow(vs[x]))
    ensures x == z
  {
    if x < |vs| { FirstOf(vs, x); }
  }

  /** parseblock up to the closing parenthesis. */
  method Parseparens(line: string, s0: nat, ghost us: seq<Tok>) returns (r: Parsed, s: nat, ghost m: nat)
    requires Lexed(line, s0, |line|, us) && NUL !in line && us != [] && us[0] == Sym('(')
    ensures Passed(line, s0, us, r, s, m)
    ensures r.Done? ==> allocated(Objs(r.cmd)) && m >= 2 && us[m - 1] == Sym(')') && IsLine(View(r.cmd), us[1..m - 1])
    ensures forall n: nat, k: nat | CanBlock(us, n, k) :: r.Done? && k == m - 1
    decreases |us|, 0
  {
    hide View, Sound, Objs, Lexed, IsLine, Small, CanLine;
    var b, t, q, eq;
    m := 0;
    assert us[0..] == us;
    b, s := Peek(line, s0, us, "(");
    if !b { return Panic, s, m; }
    t, q, eq, s := Gettoken(line, s, us);
    ghost var j;
    r, s, j := Parseline(line, s, us[1..]);
    BlockLine(us, r.Done?, j);
    if r.Panic? { return; }
    m := j + 1;
    assert us[1..][j..] == us[m..] && us[1..][..j] == us[1..m];
    b, s := Peek(line, s, us[m..], ")");
    if !b { return Panic, s, m; }
    t, q, eq, s := Gettoken(line, s, us[m..]);
    assert us[m..][1..] == us[m + 1..];
    m := m + 1;
  }

  lemma BlockLine(us: seq<Tok>, done: bool, j: nat)
    requires us != [] && forall n: nat | CanLine(us[1..], n) :: done && j == n
    ensures forall n: nat, k: nat | CanBlock(us, n, k) :: done && k == j + 1 && k < |us| && us[k] == Sym(')')
  {
    hide CanLine;
  }

  method Parseexec(line: string, s0: nat, ghost us: seq<Tok>) returns (r: Parsed, s: nat, ghost m: nat)
    requires Lexed(line, s0, |line|, us) && NUL !in line
    ensures Passed(line, s0, us, r, s, m)
    ensures r.Done? ==> allocated(Objs(r.cmd)) && IsExec(View(r.cmd), us[..m])
    ensures forall n: nat | CanExec(us, n) :: r.Done? && m == n
    decreases |us|, 2
  {
    hide View, Sound, Objs, Lexed, IsExec, CanExec, CanArgs, CanBlock, Small;
    var b;
    b, s := Peek(line, s0, us, "(");
    forall n: nat | CanExec(us, n) ensures (CanArgs(us, n) && !b) || (b && exists k: nat :: CanBlock(us, n, k)) {
      ExecAfter(us, n);
      BlockFirst(us, n);
    }
    if b {
      r, s, m := Parseblock(line, s, us);
    } else {
      r, s, m := Parseargs(line, s, us);
    }
  }

  lemma BlockFirst(us: seq<Tok>, n: nat)
    ensures forall k: nat | CanBlock(us, n, k) :: us != [] && us[0] == Sym('(')
  {
    hide CanLine;
  }

  lemma ExecView(x: ExecCmd, rs: seq<Into>)
    ensures Objs(WrapCmd(Exec(x), rs)) == {x, x.argv, x.eargv} && Sound(WrapCmd(Exec(x), rs)) == x.Valid()
    ensures View(WrapCmd(Exec(x), rs)) == Wrap(TExec(x.words), rs)
    ensures Small(View(WrapCmd(Exec(x), rs))) == (|x.words| < MAXARGS)
  {
    WrapView(Exec(x), rs);
    WrapSmall(TExec(x.words), rs);
  }

  /** What is ahead after m tokens, argc of them arguments. */
  ghost predicate ArgsFrom(us: seq<Tok>, n: nat, m: nat, argc: nat) {
    Ahead(us, n, m) && argc + Plains(us[m..n]) < MAXARGS
  }

  /** The node holds the first m tokens. */
  ghost predicate Held(r: Parsed, x: ExecCmd, argc: nat, us: seq<Tok>, m: nat, rs: seq<Into>)
    reads x, x.argv, x.eargv
  {
    && r == Done(WrapCmd(Exec(x), rs)) && x.Valid() && argc == |x.words|
    && m <= |us| && Mix(x.words, rs, us[..m]) && (m < |us| ==> !Arrow(us[m]))
  }

  /** parseexec when no parenthesis follows. */
  method Parseargs(line: string, s0: nat, ghost us: seq<Tok>) returns (r: Parsed, s: nat, ghost m: nat)
    requires Lexed(line, s0, |line|, us) && NUL !in line
    ensures Passed(line, s0, us, r, s, m)
    ensures r.Done? ==> allocated(Objs(r.cmd)) && IsExec(View(r.cmd), us[..m])
    ensures forall n: nat | CanArgs(us, n) :: r.Done? && m == n
  {
    hide View, Sound, Objs, Lexed, IsExec, WrapCmd, Mix, Rows, Wrap, CanArgs, ArgsFrom, ArgStep, Ahead, Small;
    var x := new ExecCmd();
    var argc: nat, b, tok, q, eq := 0, false, NUL, 0, 0;
    ghost var rs;
    r, s, rs := Parseredirs(line, Exec(x), s0, us);
    m := |Rows(rs)|;
    ArgsStart(us, m, r.Done?);
    if r.Panic? { return; }
    MixOnly(rs);
    b, s := Peek(line, s, us[m..], "|)&;");
    while !b
      invariant s0 <= s <= |line| && Held(r, x, argc, us, m, rs) && Lexed(line, s, |line|, us[m..])
      invariant fresh(x) && fresh(x.argv) && fresh(x.eargv)
      invariant b <==> m < |us| && us[m].Sym? && us[m].c in "|)&;"
      invariant forall n: nat | CanArgs(us, n) :: ArgsFrom(us, n, m, argc)
      decreases |us| - m, !b
    {
      ArgNext(us, m, argc);
      tok, q, eq, s := Gettoken(line, s, us[m..]);
      if tok == NUL {
        break;
      }
      if tok != 'a' {
        NoArg(us, m, argc);
        return Panic, s, m;
      }
      assert us[m..][1..] == us[m + 1..];
      r, argc, s, m, rs := Parsearg(line, x, r.cmd, argc, q, eq, s, us, m, rs);
      if r.Panic? { return; }
      b, s := Peek(line, s, us[m..], "|)&;");
    }
    ArgsEnd(us, m, argc);
    x.argv[argc], x.eargv[argc] := -1, -1;
    ExecView(x, rs);
    ArgsJoin(x.words, rs, us[..m]);
  }

  /** The loop body of parseexec, once a word has been read: the argument goes in, and the redirections after it. */
  method Parsearg(line: string, x: ExecCmd, cmd: Cmd, argc0: nat, q: nat, eq: nat, s0: nat, ghost us: seq<Tok>,
                  ghost m0: nat, ghost rs0: seq<Into>)
    returns (r: Parsed, argc: nat, s: nat, ghost m: nat, ghost rs: seq<Into>)
    requires Held(Done(cmd), x, argc0, us, m0, rs0) && m0 < |us| && us[m0] == Arg(Span(q, eq))
    requires Lexed(line, s0, |line|, us[m0 + 1..]) && NUL !in line
    requires forall n: nat | CanArgs(us, n) :: m0 <= n && ArgStep(us, n, m0, argc0)
    modifies x`words, x.argv, x.eargv
    ensures r.Done? ==> s0 <= s <= |line| && m0 < m && Held(r, x, argc, us, m, rs) && Lexed(line, s, |line|, us[m..])
    ensures forall n: nat | CanArgs(us, n) :: r.Done? && ArgsFrom(us, n, m, argc)
  {
    hide Lexed, WrapCmd, Mix, Rows, CanArgs, ArgsFrom, ArgStep, Ahead;
    ghost var v, more := us[m0 + 1..], [];
    ghost var words := x.words;
    argc := x.Add(argc0, q, eq);
    if argc >= MAXARGS {
      TooMany(us, m0, argc0);
      return Panic, argc, s0, m0, rs0;
    }
    r, s, more := Parseredirs(line, cmd, s0, v);
    ArgsMore(us, m0 + 1, v, argc, |Rows(more)|, r.Done?);
    m, rs := m0 + 1 + |Rows(more)|, rs0 + more;
    if r.Done? {
      WrapTwice(Exec(x), rs0, more);
      MixTaken(words, rs0, us, m0, Span(q, eq), more);
    }
  }

  /** An argument and the redirections after it join those already read. */
  lemma MixTaken(words: seq<Span>, rs: seq<Into>, us: seq<Tok>, m: nat, w: Span, more: seq<Into>)
    requires m < |us| && Mix(words, rs, us[..m]) && us[m] == Arg(w) && |Rows(more)| <= |us[m + 1..]|
    requires us[m + 1..][..|Rows(more)|] == Rows(more) && forall i | i in more :: i.Proper()
    ensures var k := m + 1 + |Rows(more)|;
            Mix(words + [w], rs + more, us[..k]) && us[m + 1..][|Rows(more)|..] == us[k..]
  {
    hide Mix, Rows;
    MixArg(words, rs, us[..m], w);
    assert us[..m] + [Arg(w)] == us[..m + 1];
    MixRows(words + [w], rs, us[..m + 1], more);
    assert us[..m + 1] + us[m + 1..][..|Rows(more)|] == us[..m + 1 + |Rows(more)|];
  }

  lemma MixOnly(rs: seq<Into>)
    requires forall i | i in rs :: i.Proper()
    ensures Mix([], rs, Rows(rs))
  {
    MixRows([], [], [], rs);
    assert [] + rs == rs && [] + Rows(rs) == Rows(rs);
  }

  lemma ArgsStart(us: seq<Tok>, m: nat, done: bool)
    requires forall n: nat | Ahead(us, n, 0) :: done && Ahead(us, n, m) && Plains(us[m..n]) == Plains(us[..n])
    ensures forall n: nat | CanArgs(us, n) :: done && ArgsFrom(us, n, m, 0)
  {
    forall n: nat | CanArgs(us, n) ensures done && ArgsFrom(us, n, m, 0) {
      assert us[0..n] == us[..n];
      assert Ahead(us, n, 0);
    }
  }

  /** One argument more is ahead, or nothing. */
  ghost predicate ArgStep(us: seq<Tok>, n: nat, m: nat, argc: nat) {
    (n == m <= |us| && End(us[m..], "|&;)")) || (m < n <= |us| && us[m].Arg? && ArgsFrom(us, n, m + 1, argc + 1))
  }

  lemma ArgNext(us: seq<Tok>, m: nat, argc: nat)
    requires m <= |us| && (m < |us| ==> !Arrow(us[m])) && forall n: nat | CanArgs(us, n) :: ArgsFrom(us, n, m, argc)
    ensures forall n: nat | CanArgs(us, n) :: m <= n && ArgStep(us, n, m, argc)
  {
    hide CanArgs;
    forall n: nat | CanArgs(us, n) ensures m <= n && ArgStep(us, n, m, argc) {
      assert ArgsFrom(us, n, m, argc);
      var ts := us[m..n];
      assert ts != [] ==> ts[0] == us[m] && ts[1..] == us[m + 1..n];
    }
  }

  lemma NoArg(us: seq<Tok>, m: nat, argc: nat)
    requires m < |us| && us[m].Sym? && us[m].c !in "|&;)" && forall n: nat | CanArgs(us, n) :: ArgStep(us, n, m, argc)
    ensures forall n: nat :: !CanArgs(us, n)
  {
    hide CanArgs;
    FirstOf(us, m);
    forall n: nat ensures !ArgStep(us, n, m, argc) {}
  }

  lemma TooMany(us: seq<Tok>, m: nat, argc: nat)
    requires argc + 1 >= MAXARGS && m < |us| && us[m].Arg? && forall n: nat | CanArgs(us, n) :: ArgStep(us, n, m, argc)
    ensures forall n: nat :: !CanArgs(us, n)
  {
    hide CanArgs;
    FirstOf(us, m);
    forall n: nat ensures !ArgStep(us, n, m, argc) {}
  }

  lemma ArgsMore(us: seq<Tok>, m: nat, u: seq<Tok>, argc: nat, x: nat, done: bool)
    requires 0 < m <= |us| && us[m - 1].Arg? && argc > 0 && u == us[m..]
    requires forall n: nat | CanArgs(us, n) :: m - 1 <= n && ArgStep(us, n, m - 1, argc - 1)
    requires forall n: nat | Ahead(u, n, 0) :: done && Ahead(u, n, x) && Plains(u[x..n]) == Plains(u[..n])
    ensures forall n: nat | CanArgs(us, n) :: done && ArgsFrom(us, n, m + x, argc)
  {
    hide CanArgs;
    assert us[m - 1..][0] == us[m - 1];
    forall n: nat | CanArgs(us, n) ensures done && ArgsFrom(us, n, m + x, argc) {
      assert ArgStep(us, n, m - 1, argc - 1);
      var z := n - m;
      assert u[0..z] == us[m..n] && u[..z] == us[m..n] && u[z..] == us[n..];
      assert Ahead(u, z, 0);
      assert u[x..z] == us[m + x..n];
    }
  }

  lemma ArgsEnd(us: seq<Tok>, m: nat, argc: nat)
    requires m <= |us| && (m == |us| || (us[m].Sym? && !Arrow(us[m])))
    requires forall n: nat | CanArgs(us, n) :: ArgsFrom(us, n, m, argc)
    ensures forall n: nat | CanArgs(us, n) :: m == n
  {
    hide CanArgs;
    forall n: nat | CanArgs(us, n) ensures m == n {
      assert ArgsFrom(us, n, m, argc);
      if m < |us| { FirstOf(us, m); }
    }
  }

  /** The words of the tree, arguments and files. */
  ghost function Words(t: Cmd): multiset<Span>
    reads Objs(t)
  {
    TreeWords(View(t))
  }

  /** Some word ends at i. */
  ghost predicate Ends(ws: multiset<Span>, i: int) {
    exists w | w in ws :: w.e == i
  }

  lemma EndsSum(a: multiset<Span>, b: multiset<Span>, i: int)
    ensures Ends(a + b, i) <==> Ends(a, i) || Ends(b, i)
  {
    if Ends(a, i) { var w :| w in a && w.e == i; assert w in a + b; }
    if Ends(b, i) { var w :| w in b && w.e == i; assert w in a + b; }
  }

  /** A NUL after each of the words, and no other store. */
  ghost predicate Cut(a: seq<char>, b: seq<char>, ws: multiset<Span>) {
    |b| == |a| && forall i | 0 <= i < |a| :: b[i] == if Ends(ws, i) then NUL else a[i]
  }

  lemma CutTwice(a: seq<char>, b: seq<char>, c: seq<char>, x: multiset<Span>, y: multiset<Span>)
    requires Cut(a, b, x) && Cut(b, c, y)
    ensures Cut(a, c, x + y)
  {
    forall i | 0 <= i < |a| ensures c[i] == if Ends(x + y, i) then NUL else a[i] {
      EndsSum(x, y, i);
    }
  }

  lemma CutOne(a: seq<char>, w: Span)
    requires w.e < |a|
    ensures Cut(a, a[w.e := NUL], multiset{w})
  {
    assert w in multiset{w};
  }

  ghost predicate Fit(ws: multiset<Span>, n: nat) {
    forall w | w in ws :: w.e < n
  }

  lemma FitSum(a: multiset<Span>, b: multiset<Span>, n: nat)
    requires Fit(a + b, n)
    ensures Fit(a, n) && Fit(b, n)
  {
    assert forall w | w in a || w in b :: w in a + b;
  }

  method Nulterminate(t: Cmd, line: array<char>)
    requires allocated(Objs(t)) && Sound(t) && line !in Objs(t) && Fit(Words(t), line.Length)
    modifies line
    ensures Cut(old(line[..]), line[..], old(Words(t)))
    decreases t, 1
  {
    hide Cut, Fit, Ends;
    ghost var l0 := line[..];
    match t
    case Exec(x) =>
      TerminateArgs(x, line);
    case Redir(c, file, efile, mode, fd) =>
      ghost var ws, w := Words(c), Span(file, efile);
      FitSum(ws, multiset{w}, line.Length);
      FitOne(w, line.Length);
      Nulterminate(c, line);
      ghost var l1 := line[..];
      CutOne(l1, w);
      line[efile] := NUL;
      assert line[..] == l1[efile := NUL];
      CutTwice(l0, l1, line[..], ws, multiset{w});
    case Pipe(l, r) =>
      NulterminateBoth(l, r, line, t);
    case List(l, r) =>
      NulterminateBoth(l, r, line, t);
    case Back(c) =>
      Nulterminate(c, line);
  }

  lemma FitOne(w: Span, n: nat)
    requires Fit(multiset{w}, n)
    ensures w.e < n
  {
    assert w in multiset{w};
  }

  /** The two sides of a pipe or a list. */
  method NulterminateBoth(l: Cmd, r: Cmd, line: array<char>, ghost t: Cmd)
    requires t == Pipe(l, r) || t == List(l, r)
    requires allocated(Objs(l)) && allocated(Objs(r)) && Sound(l) && Sound(r) && line !in Objs(l) && line !in Objs(r)
    requires Fit(Words(l) + Words(r), line.Length)
    modifies line
    ensures Cut(old(line[..]), line[..], old(Words(l) + Words(r)))
    decreases t, 0
  {
    hide Cut, Fit, Ends, Words, Sound, Objs, View;
    ghost var a, b, l0 := Words(l), Words(r), line[..];
    FitSum(a, b, line.Length);
    Nulterminate(l, line);
    ghost var l1 := line[..];
    Nulterminate(r, line);
    CutTwice(l0, l1, line[..], a, b);
  }

  /** The loop of nulterminate over an argument vector. */
  method TerminateArgs(x: ExecCmd, line: array<char>)
    requires x.Valid() && Fit(multiset(x.words), line.Length)
    modifies line
    ensures Cut(old(line[..]), line[..], multiset(x.words))
  {
    hide Ends;
    var i := 0;
    while x.argv[i] != -1
      invariant 0 <= i <= |x.words| && x.Valid()
      invariant forall k | 0 <= k < line.Length :: line[k] == if Ended(x.words, i, k) then NUL else old(line[k])
      decreases |x.words| - i
    {
      assert x.words[i] in multiset(x.words);
      line[x.eargv[i]] := NUL;
      i := i + 1;
    }
    forall k | 0 <= k < line.Length ensures Ended(x.words, i, k) <==> Ends(multiset(x.words), k) {
      EndedAll(x.words, k);
    }
  }

  /** One of the first n words ends at k. */
  ghost predicate Ended(words: seq<Span>, n: nat, k: int)
    requires n <= |words|
  {
    exists j | 0 <= j < n :: words[j].e == k
  }

  lemma EndedAll(words: seq<Span>, k: int)
    ensures Ended(words, |words|, k) <==> Ends(multiset(words), k)
  {
    if Ended(words, |words|, k) {
      var j :| 0 <= j < |words| && words[j].e == k;
      assert words[j] in multiset(words);
    }
    if Ends(multiset(words), k) {
      var w :| w in multiset(words) && w.e == k;
      assert w in words;
    }
  }

  /** Every word of the tree stands in the line as a NUL-terminated string of its own. */
  ghost predicate Terminated(text: string, line: seq<char>, ws: multiset<Span>) {
    forall w | w in ws :: w.q < w.e <= |text| && w.e < |line| && line[w.q..w.e] == text[w.q..w.e] && line[w.e] == NUL
  }

  /** Ending one word never touches another, because the character after a word is in no word. */
  lemma CutIntact(text: string, line: seq<char>, line2: seq<char>, ws: multiset<Span>)
    requires |text| < |line| && line[..|text|] == text && Cut(line, line2, ws)
    requires forall w | w in ws :: Word(text, w)
    ensures Terminated(text, line2, ws)
  {
    forall w | w in ws ensures line2[w.q..w.e] == text[w.q..w.e] && line2[w.e] == NUL {
      assert Ends(ws, w.e);
      forall k | w.q <= k < w.e ensures !Ends(ws, k) {
        NotInside(text, w, ws, k);
      }
      assert forall k | w.q <= k < w.e :: line2[k] == line[k] && line[k] == text[k];
    }
  }

  lemma NotInside(text: string, w: Span, ws: multiset<Span>, k: int)
    requires Word(text, w) && w.q <= k < w.e && forall x | x in ws :: Word(text, x)
    ensures !Ends(ws, k)
  {
    assert Plain(text[k]);
    forall x | x in ws ensures x.e != k {
      assert x.e < |text| ==> !Plain(text[x.e]);
    }
  }

  /** strlen */
  method Strlen(line: array<char>) returns (n: nat)
    requires NUL in line[..]
    ensures n < line.Length && line[n] == NUL && NUL !in line[..n]
  {
    n := 0;
    while line[n] != NUL
      invariant n < line.Length && NUL !in line[..n] && exists k | n <= k < line.Length :: line[k] == NUL
      decreases line.Length - n
    {
      n := n + 1;
    }
  }

  /** The tokens are a command line, and no command in it has too many arguments. */
  ghost predicate Acceptable(us: seq<Tok>) {
    exists t :: IsLine(t, us) && Small(t)
  }

  /** parsecmd: accepts exactly the lines whose tokens the grammar derives within the argument limit; the tree is the
      only derivation, of exactly the line's maximal words, each ended by a NUL where it stands. */
  method Parsecmd(line: array<char>) returns (r: Parsed, ghost text: string, ghost us: seq<Tok>)
    requires NUL in line[..]
    modifies line
    ensures text <= old(line[..]) && |text| < line.Length && NUL !in text && old(line[..])[|text|] == NUL
    ensures Lexed(text, 0, |text|, us) && (r.Done? <==> Acceptable(us))
    ensures r.Panic? ==> line[..] == old(line[..])
    ensures r.Done? ==> Sound(r.cmd) && forall t :: IsLine(t, us) <==> t == View(r.cmd)
    ensures r.Done? ==> Arrows(View(r.cmd), us, |us|)
    ensures r.Done? ==> Words(r.cmd) == multiset(WordsTo(text, |text|)) && Terminated(text, line[..], Words(r.cmd))
  {
    hide View, Words, WordsTo, Sound, Objs, Cut, Fit, Terminated, Boundary, Lexed, IsLine, Small, CanLine, Acceptable,
      Arrows;
    var n := Strlen(line);
    text := line[..n];
    var s, b;
    ghost var m;
    Starts(text);
    us := Tokens(text, 0);
    AcceptCan(us);
    r, s, m := Parseline(line[..n], 0, us);
    if r.Panic? { return; }
    b, s := Peek(line[..n], s, us[m..], "");
    if s != n {
      return Panic, text, us;
    }
    AllPassed(text, us, m, s);
    assert us[..m] == us;
    ghost var l, t := line[..], View(r.cmd);
    Accepted(t, us);
    OnlyTree(us, t);
    LineArrows(t, us);
    LineIs(text, t, us, line.Length);
    WordsAre(r.cmd);
    NotOwn(r.cmd, line);
    Nulterminate(r.cmd, line);
    WordsAre(r.cmd);
    CutIntact(text, l, line[..], TreeWords(t));
  }

  lemma AcceptCan(us: seq<Tok>)
    ensures Acceptable(us) ==> CanLine(us, |us|)
  {
    hide IsLine, Small;
    assert us[..|us|] == us;
  }

  lemma Accepted(t: Tree, us: seq<Tok>)
    requires IsLine(t, us) && Small(t)
    ensures Acceptable(us)
  {
    hide IsLine, Small;
  }

  lemma OnlyTree(us: seq<Tok>, t: Tree)
    requires IsLine(t, us)
    ensures forall u :: IsLine(u, us) <==> u == t
  {
    forall u ensures IsLine(u, us) <==> u == t {
      if IsLine(u, us) { OneTree(us, t, u); }
    }
  }

  /** At the end of the line no token is left. */
  lemma AllPassed(text: string, us: seq<Tok>, m: nat, s: nat)
    requires m <= |us| && s == |text| && Lexed(text, s, |text|, us[m..])
    ensures m == |us|
  {
    LexedSkip(text, s, s, us[m..]);
  }

  lemma WordsAre(t: Cmd)
    ensures Words(t) == TreeWords(View(t))
  {
  }

  lemma Starts(text: string)
    ensures Boundary(text, 0)
  {
  }

  /** The line is no part of the tree. */
  lemma NotOwn(t: Cmd, line: array<char>)
    ensures line !in Objs(t)
  {
  }

  /** An accepted line's tree holds its maximal words. */
  lemma LineIs(text: string, t: Tree, ts: seq<Tok>, n: nat)
    requires Lexed(text, 0, |text|, ts) && IsLine(t, ts) && |text| < n
    ensures TreeWords(t) == multiset(WordsTo(text, |text|)) && Fit(TreeWords(t), n)
    ensures forall w | w in TreeWords(t) :: Word(text, w)
  {
    LineWords(t, ts);
    Starts(text);
    LexedWords(text, 0, |text|, ts);
    assert WordsTo(text, 0) == {};
    assert forall w | w in WordsTo(text, |text|) :: Word(text, w) && w.e <= |text|;
  }
}
