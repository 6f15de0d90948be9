/**
 * The fragment of Python's re (with IGNORECASE) that the SQL gate is written in, and what is true of every
 * pattern of it.
 */
module Regex {
  import opened Text

  datatype Class = Ci(c: char) | Word | Space | Ident | QuoteDigit | Dot

  /** Concatenation, choice, a class once, a class any number of times, and the word edge \b. */
  datatype Re = Eps | One(cls: Class) | Many(cls: Class) | Edge | Cat(a: Re, b: Re) | Alt(a: Re, b: Re)

  predicate Has(k: Class, c: char) {
    match k
    case Ci(l) => FoldChar(c) == FoldChar(l)
    case Word => IsWord(c)
    case Space => IsSpace(c)
    case Ident => IsIdentStart(c)
    case QuoteDigit => c == '\'' || IsDigit(c)
    case Dot => c != '\n'
  }

  predicate WordAt(s: string, i: int) {
    0 <= i < |s| && IsWord(s[i])
  }

  /** \b: exactly one of the two neighbours of position i is a word character. */
  predicate AtEdge(s: string, i: int) {
    WordAt(s, i - 1) != WordAt(s, i)
  }

  /** Pattern r can match s[i..j]; greedy and lazy repetition differ only in which j they try first. */
  predicate Matches(r: Re, s: string, i: nat, j: nat)
    requires i <= j <= |s|
  {
    match r
    case Eps => i == j
    case One(k) => j == i + 1 && Has(k, s[i])
    case Many(k) => forall x | i <= x < j :: Has(k, s[x])
    case Edge => i == j && AtEdge(s, i)
    case Cat(a, b) => exists m | i <= m <= j :: Matches(a, s, i, m) && Matches(b, s, m, j)
    case Alt(a, b) => Matches(a, s, i, j) || Matches(b, s, i, j)
  }

  predicate MatchesFrom(r: Re, s: string, i: nat)
    requires i <= |s|
  {
    exists j | i <= j <= |s| :: Matches(r, s, i, j)
  }

  /** pattern.search(s) finds something. */
  ghost predicate Found(r: Re, s: string) {
    exists i, j :: 0 <= i <= j <= |s| && Matches(r, s, i, j)
  }

  /** The scan behind pattern.search: try every start from the left. */
  method Search(r: Re, s: string) returns (found: bool)
    ensures found <==> Found(r, s)
  {
    found := false;
    for i := 0 to |s| + 1
      invariant !found
      invariant forall x, j :: 0 <= x < i && x <= j <= |s| ==> !Matches(r, s, x, j)
    {
      if MatchesFrom(r, s, i) {
        return true;
      }
    }
  }

  /** A literal, matched without regard to case. */
  function Lit(w: string): Re {
    if w == "" then Eps else Cat(One(Ci(w[0])), Lit(w[1..]))
  }

  function Plus(k: Class): Re {
    Cat(One(k), Many(k))
  }

  /** The text at i spells w, up to case. */
  predicate Spells(s: string, i: nat, w: string) {
    i + |w| <= |s| && forall x :: 0 <= x < |w| ==> FoldChar(s[i + x]) == FoldChar(w[x])
  }

  lemma {:induction false} LitMatches(w: string, s: string, i: nat, j: nat)
    requires i <= j <= |s|
    ensures Matches(Lit(w), s, i, j) <==> j == i + |w| && Spells(s, i, w)
  {
    if w == "" {
    } else {
      var u := w[1..];
      if i < j {
        LitMatches(u, s, i + 1, j);
        assert Matches(Lit(w), s, i, j) <==> Matches(One(Ci(w[0])), s, i, i + 1) && Matches(Lit(u), s, i + 1, j);
        if j == i + |w| && FoldChar(s[i]) == FoldChar(w[0]) && Spells(s, i + 1, u) {
          forall x | 0 <= x < |w| ensures FoldChar(s[i + x]) == FoldChar(w[x]) {
            if x > 0 { assert w[x] == u[x - 1]; }
          }
        }
        if Spells(s, i, w) {
          forall x | 0 <= x < |u| ensures FoldChar(s[i + 1 + x]) == FoldChar(u[x]) {
            assert u[x] == w[x + 1];
          }
        }
      }
    }
  }

  lemma Join(a: Re, b: Re, s: string, i: nat, m: nat, j: nat)
    requires i <= m <= j <= |s| && Matches(a, s, i, m) && Matches(b, s, m, j)
    ensures Matches(Cat(a, b), s, i, j)
  {
  }

  lemma Split(a: Re, b: Re, s: string, i: nat, j: nat) returns (m: nat)
    requires i <= j <= |s| && Matches(Cat(a, b), s, i, j)
    ensures i <= m <= j && Matches(a, s, i, m) && Matches(b, s, m, j)
  {
    m :| i <= m <= j && Matches(a, s, i, m) && Matches(b, s, m, j);
  }

  /** t shows from i + d to j + d what s shows from i to j, up to case, and has the same edges there. */
  ghost predicate Mirrors(s: string, t: string, d: int, i: nat, j: nat) {
    && i <= j <= |s| && 0 <= i + d && j + d <= |t|
    && (forall x {:trigger s[x]} :: i <= x < j ==> FoldChar(s[x]) == FoldChar(t[x + d]))
    && (forall x {:trigger AtEdge(s, x)} :: i <= x <= j ==> AtEdge(s, x) == AtEdge(t, x + d))
  }

  lemma MirrorsBack(s: string, t: string, d: int, i: nat, j: nat)
    requires Mirrors(s, t, d, i, j)
    ensures Mirrors(t, s, -d, i + d, j + d)
  {
    forall x | i + d <= x < j + d ensures FoldChar(t[x]) == FoldChar(s[x - d]) {
      assert s[x - d] == s[x - d];
    }
    forall x | i + d <= x <= j + d ensures AtEdge(t, x) == AtEdge(s, x - d) {
      assert AtEdge(s, x - d) == AtEdge(t, x - d + d);
    }
  }

  lemma {:induction false} Carry(r: Re, s: string, t: string, d: int, i: nat, j: nat)
    requires Mirrors(s, t, d, i, j) && Matches(r, s, i, j)
    ensures Matches(r, t, i + d, j + d)
  {
    match r
    case Eps =>
    case One(k) =>
    case Many(k) =>
      forall y | i + d <= y < j + d ensures Has(k, t[y]) {
        assert Has(k, s[y - d]);
      }
    case Edge =>
      assert AtEdge(s, i) == AtEdge(t, i + d);
    case Cat(a, b) =>
      var m := Split(a, b, s, i, j);
      Carry(a, s, t, d, i, m);
      Carry(b, s, t, d, m, j);
      Join(a, b, t, i + d, m + d, j + d);
    case Alt(a, b) =>
      if Matches(a, s, i, j) {
        Carry(a, s, t, d, i, j);
      } else {
        Carry(b, s, t, d, i, j);
      }
  }

  /**
   * A match sees only the text it covers, up to case, and the edges along it: it can be carried
   * to any other text that shows the same, at any offset.
   */
  lemma Transport(r: Re, s: string, t: string, d: int, i: nat, j: nat)
    requires Mirrors(s, t, d, i, j)
    ensures Matches(r, s, i, j) <==> Matches(r, t, i + d, j + d)
  {
    if Matches(r, s, i, j) {
      Carry(r, s, t, d, i, j);
    }
    if Matches(r, t, i + d, j + d) {
      MirrorsBack(s, t, d, i, j);
      Carry(r, t, s, -d, i + d, j + d);
    }
  }

  /** Texts that differ only in case are found or not found together. */
  lemma CaseBlind(r: Re, s: string, t: string)
    requires SameFold(s, t)
    ensures Found(r, s) == Found(r, t)
  {
    forall i, j | 0 <= i <= j <= |s| ensures Matches(r, s, i, j) == Matches(r, t, i, j) {
      SameMatch(r, s, t, i, j);
    }
  }

  lemma SameMatch(r: Re, s: string, t: string, i: nat, j: nat)
    requires SameFold(s, t) && i <= j <= |s|
    ensures Matches(r, s, i, j) == Matches(r, t, i, j)
  {
    SameEdges(s, t);
    Transport(r, s, t, 0, i, j);
  }

  lemma SameEdges(s: string, t: string)
    requires SameFold(s, t)
    ensures forall x {:trigger WordAt(s, x)} {:trigger WordAt(t, x)} :: WordAt(s, x) == WordAt(t, x)
    ensures forall x {:trigger AtEdge(s, x)} {:trigger AtEdge(t, x)} :: AtEdge(s, x) == AtEdge(t, x)
  {
  }

  /** No class of r admits c. */
  predicate Rejects(r: Re, c: char) {
    match r
    case Eps => true
    case Edge => true
    case One(k) => !Has(k, c)
    case Many(k) => !Has(k, c)
    case Cat(a, b) => Rejects(a, c) && Rejects(b, c)
    case Alt(a, b) => Rejects(a, c) && Rejects(b, c)
  }

  /** Every match of r covers a character that folds to c. */
  predicate Needs(r: Re, c: char) {
    match r
    case Eps => false
    case Edge => false
    case One(k) => k == Ci(c)
    case Many(k) => false
    case Cat(a, b) => Needs(a, c) || Needs(b, c)
    case Alt(a, b) => Needs(a, c) && Needs(b, c)
  }

  lemma {:induction false} RejectedAbsent(r: Re, c: char, s: string, i: nat, j: nat)
    requires i <= j <= |s| && Matches(r, s, i, j) && Rejects(r, c)
    ensures forall x :: i <= x < j ==> s[x] != c
  {
    match r
    case Cat(a, b) =>
      var m := Split(a, b, s, i, j);
      RejectedAbsent(a, c, s, i, m);
      RejectedAbsent(b, c, s, m, j);
    case Alt(a, b) =>
      if Matches(a, s, i, j) {
        RejectedAbsent(a, c, s, i, j);
      } else {
        RejectedAbsent(b, c, s, i, j);
      }
    case _ =>
  }

  lemma {:induction false} NeededPresent(r: Re, c: char, s: string, i: nat, j: nat) returns (x: nat)
    requires i <= j <= |s| && Matches(r, s, i, j) && Needs(r, c)
    ensures i <= x < j && FoldChar(s[x]) == FoldChar(c)
  {
    match r
    case One(k) => x := i;
    case Cat(a, b) =>
      var m := Split(a, b, s, i, j);
      if Needs(a, c) {
        x := NeededPresent(a, c, s, i, m);
      } else {
        x := NeededPresent(b, c, s, m, j);
      }
    case Alt(a, b) =>
      if Matches(a, s, i, j) {
        x := NeededPresent(a, c, s, i, j);
      } else {
        x := NeededPresent(b, c, s, i, j);
      }
  }

  /** A text without the character that a pattern needs is not matched by it. */
  lemma NeededAbsent(r: Re, c: char, s: string)
    requires Needs(r, c) && forall x :: 0 <= x < |s| ==> FoldChar(s[x]) != FoldChar(c)
    ensures !Found(r, s)
  {
    if Found(r, s) {
      var i, j :| 0 <= i <= j <= |s| && Matches(r, s, i, j);
      var x := NeededPresent(r, c, s, i, j);
    }
  }
}
