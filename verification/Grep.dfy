/** grep.c: the recursive matcher, against a declarative reading of its patterns. Strings end at the first NUL. */
module Grep {
  /** One unit of a pattern: a character, or a starred one; '.' stands for any character. */
  datatype Item = One(c: char) | Star(c: char)

  /** A pattern: anchored in front, its items, anchored at the end. */
  datatype Pattern = Pattern(head: bool, items: seq<Item>, tail: bool)

  /** How the matcher divides a pattern, after any '^': a character before '*' is starred, whatever it is, and a '$'
      that is last and not starred is the anchor. */
  function Items(re: string): (seq<Item>, bool)
  {
    if re == [] then ([], false)
    else if |re| >= 2 && re[1] == '*' then
      var (xs, t) := Items(re[2..]);
      ([Star(re[0])] + xs, t)
    else if re == "$" then ([], true)
    else
      var (xs, t) := Items(re[1..]);
      ([One(re[0])] + xs, t)
  }

  /** The pattern that items are written as. */
  function Written(items: seq<Item>, tail: bool): string {
    if items == [] then (if tail then "$" else "")
    else (match items[0] case One(c) => [c] case Star(c) => [c, '*']) + Written(items[1..], tail)
  }

  /** Items that can be told apart in writing: no '*' after an unstarred character, and no last '$' that is not
      followed by the anchor. */
  predicate Readable(items: seq<Item>, tail: bool) {
    && (forall i | 0 < i < |items| && items[i].c == '*' :: items[i - 1].Star?)
    && (items != [] && items[|items| - 1] == One('$') ==> tail)
  }

  /** Every pattern is written from its items. */
  lemma {:induction false} ItemsWritten(re: string)
    ensures var (xs, t) := Items(re); Written(xs, t) == re && Readable(xs, t)
    decreases |re|
  {
    if re == [] || re == "$" {
    } else {
      var n := if |re| >= 2 && re[1] == '*' then 2 else 1;
      var (xs, t) := Items(re);
      var (ys, u) := Items(re[n..]);
      ItemsWritten(re[n..]);
      assert xs == [xs[0]] + ys && xs[1..] == ys && re == re[..n] + re[n..];
      ReadableMore(xs[0], ys, t);
    }
  }

  lemma ReadableMore(x: Item, ys: seq<Item>, tail: bool)
    requires Readable(ys, tail) && (x.One? && ys != [] ==> ys[0].c != '*')
    requires x == One('$') && ys == [] ==> tail
    ensures Readable([x] + ys, tail)
  {
    var xs := [x] + ys;
    forall i | 0 < i < |xs| && xs[i].c == '*' ensures xs[i - 1].Star? {
      assert xs[i] == ys[i - 1];
      if i > 1 { assert xs[i - 1] == ys[i - 2]; }
    }
  }

  lemma ReadableLess(items: seq<Item>, tail: bool)
    requires Readable(items, tail) && items != []
    ensures Readable(items[1..], tail)
  {
    var ys := items[1..];
    forall i | 0 < i < |ys| && ys[i].c == '*' ensures ys[i - 1].Star? {
      assert ys[i] == items[i + 1] && ys[i - 1] == items[i];
    }
  }

  /** And items that can be told apart read back, so this is the one way to divide a pattern. */
  lemma {:induction false} WrittenItems(items: seq<Item>, tail: bool)
    requires Readable(items, tail)
    ensures Items(Written(items, tail)) == (items, tail)
    decreases |items|
  {
    if items != [] {
      var re, rest := Written(items, tail), Written(items[1..], tail);
      ReadableLess(items, tail);
      WrittenItems(items[1..], tail);
      assert items == [items[0]] + items[1..];
      if items[0].Star? {
        assert re[2..] == rest;
      } else {
        assert re[1..] == rest;
        assert |items| > 1 ==> rest[0] == items[1].c != '*';
      }
    }
  }

  function Parse(re: string): Pattern {
    if re != [] && re[0] == '^' then
      var (xs, t) := Items(re[1..]);
      Pattern(true, xs, t)
    else
      var (xs, t) := Items(re);
      Pattern(false, xs, t)
  }

  predicate Is(c: char, x: char) {
    c == '.' || c == x
  }

  /** The texts an item stands for. */
  predicate Stands(i: Item, s: string) {
    match i
    case One(c) => |s| == 1 && Is(c, s[0])
    case Star(c) => forall k | 0 <= k < |s| :: Is(c, s[k])
  }

  /** The texts a sequence of items stands for: one cut of the text, item by item. */
  ghost predicate Denotes(items: seq<Item>, s: string)
    decreases |items|
  {
    if items == [] then s == []
    else exists n | 0 <= n <= |s| :: Stands(items[0], s[..n]) && Denotes(items[1..], s[n..])
  }

  /** Some prefix of the text, or all of it under '$', is in the items' language. */
  ghost predicate StartsWith(items: seq<Item>, tail: bool, text: string) {
    exists n | 0 <= n <= |text| && (tail ==> n == |text|) :: Denotes(items, text[..n])
  }

  /** The text has a match: anywhere, or only at its start under '^'. */
  ghost predicate Matches(p: Pattern, text: string) {
    exists m | 0 <= m <= |text| && (p.head ==> m == 0) :: StartsWith(p.items, p.tail, text[m..])
  }

  /** Without anchors that is: some piece of the text is in the items' language. */
  lemma MatchesSubstring(p: Pattern, text: string)
    requires !p.head && !p.tail
    ensures Matches(p, text) <==> exists i, j | 0 <= i <= j <= |text| :: Denotes(p.items, text[i..j])
  {
    if Matches(p, text) {
      var m :| 0 <= m <= |text| && StartsWith(p.items, p.tail, text[m..]);
      var n :| 0 <= n <= |text[m..]| && Denotes(p.items, text[m..][..n]);
      assert text[m..][..n] == text[m..m + n];
    }
    if i, j :| 0 <= i <= j <= |text| && Denotes(p.items, text[i..j]) {
      assert text[i..][..j - i] == text[i..j];
      assert StartsWith(p.items, p.tail, text[i..]);
    }
  }

  lemma StartEmpty(tail: bool, text: string)
    ensures StartsWith([], tail, text) <==> !tail || text == []
  {
    assert !tail ==> text[..0] == [];
    assert Denotes([], []);
    assert tail && text == [] ==> text[..0] == [];
  }

  lemma StartOne(items: seq<Item>, tail: bool, text: string)
    requires items != [] && items[0].One?
    ensures StartsWith(items, tail, text) <==>
            text != [] && Is(items[0].c, text[0]) && StartsWith(items[1..], tail, text[1..])
  {
    if StartsWith(items, tail, text) {
      var n :| 0 <= n <= |text| && (tail ==> n == |text|) && Denotes(items, text[..n]);
      var k :| 0 <= k <= n && Stands(items[0], text[..n][..k]) && Denotes(items[1..], text[..n][k..]);
      assert text[..n][1..] == text[1..][..n - 1];
    }
    if text != [] && Is(items[0].c, text[0]) && StartsWith(items[1..], tail, text[1..]) {
      var n :| 0 <= n <= |text[1..]| && (tail ==> n == |text[1..]|) && Denotes(items[1..], text[1..][..n]);
      var s := text[..n + 1];
      assert s[1..] == text[1..][..n] && s[..1] == [text[0]];
      assert Stands(items[0], s[..1]) && Denotes(items[1..], s[1..]);
    }
  }

  /** A starred character: skip none, or one and try again. */
  lemma StartStar(items: seq<Item>, tail: bool, text: string)
    requires items != [] && items[0].Star?
    ensures StartsWith(items, tail, text) <==>
            exists k | 0 <= k <= |text| :: Stands(items[0], text[..k]) && StartsWith(items[1..], tail, text[k..])
  {
    if StartsWith(items, tail, text) {
      var n :| 0 <= n <= |text| && (tail ==> n == |text|) && Denotes(items, text[..n]);
      var k :| 0 <= k <= n && Stands(items[0], text[..n][..k]) && Denotes(items[1..], text[..n][k..]);
      assert text[..n][..k] == text[..k] && text[..n][k..] == text[k..][..n - k];
      assert StartsWith(items[1..], tail, text[k..]);
    }
    if k :| 0 <= k <= |text| && Stands(items[0], text[..k]) && StartsWith(items[1..], tail, text[k..]) {
      var n :| 0 <= n <= |text[k..]| && (tail ==> n == |text[k..]|) && Denotes(items[1..], text[k..][..n]);
      var s := text[..k + n];
      assert s[..k] == text[..k] && s[k..] == text[k..][..n];
      assert Denotes(items, s);
    }
  }

  /** match: whether the text has a match. */
  method Match(re: string, text: string) returns (r: bool)
    ensures r <==> Matches(Parse(re), text)
  {
    if re != [] && re[0] == '^' {
      r := MatchHere(re[1..], text);
      assert text[0..] == text;
      return;
    }
    var i := 0;
    var done := false;
    while !done
      invariant i <= |text| + 1 && (!done ==> i <= |text|) && (done ==> i == |text| + 1)
      invariant forall m | 0 <= m < i && m <= |text| :: !StartsWith(Items(re).0, Items(re).1, text[m..])
      decreases |text| + 1 - i
    {
      var b := MatchHere(re, text[i..]);
      if b {
        return true;
      }
      done := i == |text|;       // the NUL the pointer stood on
      i := i + 1;
    }
    return false;
  }

  /** matchhere: whether the text starts with a match. */
  method MatchHere(re: string, text: string) returns (r: bool)
    ensures r <==> StartsWith(Items(re).0, Items(re).1, text)
    decreases |re|, 0
  {
    var items := Items(re).0;
    if re == [] {
      StartEmpty(false, text);
      return true;
    }
    if |re| >= 2 && re[1] == '*' {
      r := MatchStar(re[0], re[2..], text);
      StartStar(items, Items(re).1, text);
      assert items[1..] == Items(re[2..]).0;
      return;
    }
    if re[0] == '$' && |re| == 1 {
      StartEmpty(true, text);
      return text == [];
    }
    StartOne(items, Items(re).1, text);
    assert items[1..] == Items(re[1..]).0;
    if text != [] && (re[0] == '.' || re[0] == text[0]) {
      r := MatchHere(re[1..], text[1..]);
      return;
    }
    return false;
  }

  /** matchstar: whether the text starts with any number of c and then a match of re. */
  method MatchStar(c: char, re: string, text: string) returns (r: bool)
    ensures r <==> exists k | 0 <= k <= |text| ::
              Stands(Star(c), text[..k]) && StartsWith(Items(re).0, Items(re).1, text[k..])
    decreases |re|, 1
  {
    var i := 0;
    while true
      invariant i <= |text| && Stands(Star(c), text[..i])
      invariant forall k | 0 <= k < i :: !StartsWith(Items(re).0, Items(re).1, text[k..])
      decreases |text| - i
    {
      var b := MatchHere(re, text[i..]);
      if b {
        return true;
      }
      if i < |text| && (text[i] == c || c == '.') {
        i := i + 1;
      } else {
        forall k | i < k <= |text| ensures !Stands(Star(c), text[..k]) {
          assert text[..k][i] == text[i];
        }
        return false;
      }
    }
  }
}
