/** sh.c: characters, words and command trees. A position in the line stands for the pointer to it; a line is its
    characters before the NUL. */
module ShWords {
  const MAXARGS: nat := 10
  const NUL: char := '\0'

  predicate White(c: char) { c in " \t\r\n\U{0b}" }

  predicate Symbol(c: char) { c in "<|>&;()" }

  predicate Plain(c: char) { !White(c) && !Symbol(c) }

  /** *s, which is NUL at the end of the line. */
  function Ch(line: string, s: nat): char {
    if s < |line| then line[s] else NUL
  }

  datatype Span = Span(q: nat, e: nat)

  /** A maximal run of plain characters. */
  ghost predicate Word(line: string, w: Span) {
    && w.q < w.e <= |line| && (forall k | w.q <= k < w.e :: Plain(line[k]))
    && (w.q > 0 ==> !Plain(line[w.q - 1])) && (w.e < |line| ==> !Plain(line[w.e]))
  }

  /** The words that end by position b. */
  ghost function WordsTo(line: string, b: nat): set<Span> {
    set q, e | 0 <= q < |line| && 0 <= e <= |line| && e <= b && Word(line, Span(q, e)) :: Span(q, e)
  }

  lemma WordsToHas(line: string, b: nat, w: Span)
    ensures w in WordsTo(line, b) <==> w.e <= b && Word(line, w)
  {
  }

  /** No word goes across position s. */
  predicate Boundary(line: string, s: nat) {
    s <= |line| && (s == 0 || s == |line| || !Plain(line[s - 1]) || !Plain(line[s]))
  }

  /** A stretch without plain characters adds no word. */
  lemma NoWords(line: string, a: nat, b: nat)
    requires a <= b <= |line| && Boundary(line, a) && forall k | a <= k < b :: !Plain(line[k])
    ensures WordsTo(line, b) == WordsTo(line, a) && Boundary(line, b)
  {
    forall w ensures w in WordsTo(line, b) <==> w in WordsTo(line, a) {
      WordsToHas(line, a, w);
      WordsToHas(line, b, w);
      assert Word(line, w) ==> Plain(line[w.e - 1]);
    }
  }

  /** A word adds itself. */
  lemma OneWord(line: string, w: Span)
    requires Word(line, w)
    ensures WordsTo(line, w.e) == WordsTo(line, w.q) + {w} && w !in WordsTo(line, w.q) && Boundary(line, w.e)
  {
    forall x ensures x in WordsTo(line, w.e) <==> x in WordsTo(line, w.q) + {w} {
      WordsToHas(line, w.e, x);
      WordsToHas(line, w.q, x);
      if Word(line, x) && w.q < x.e <= w.e {
        SameWord(line, w, x);
      }
    }
    WordsToHas(line, w.q, w);
  }

  /** Words that overlap are one. */
  lemma SameWord(line: string, w: Span, x: Span)
    requires Word(line, w) && Word(line, x) && w.q < x.e && x.q < w.e
    ensures x == w
  {
  }

  lemma WordsGrow(line: string, a: nat, b: nat)
    requires a <= b
    ensures WordsTo(line, a) <= WordsTo(line, b)
  {
    forall w | w in WordsTo(line, a) ensures w in WordsTo(line, b) {
      WordsToHas(line, a, w);
      WordsToHas(line, b, w);
    }
  }

  /** The words between two positions, each once. */
  ghost function Between(line: string, a: nat, b: nat): multiset<Span> {
    multiset(WordsTo(line, b) - WordsTo(line, a))
  }

  lemma BetweenSplit(line: string, a: nat, b: nat, c: nat)
    requires a <= b <= c
    ensures Between(line, a, c) == Between(line, a, b) + Between(line, b, c)
  {
    WordsGrow(line, a, b);
    WordsGrow(line, b, c);
  }

  lemma BetweenNone(line: string, a: nat, b: nat)
    requires WordsTo(line, a) == WordsTo(line, b)
    ensures Between(line, a, b) == multiset{}
  {
  }
}
