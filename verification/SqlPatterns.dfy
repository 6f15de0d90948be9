/** What the checks of validate_sql look for, read off the text without the machinery of patterns. */
module SqlPatterns {
  import opened Text
  import opened Regex
  import opened SqlGate

  // ---------------------------------------------------------------- the SELECT check

  /** Blanks up to a, opening parentheses up to b, and there the whole word SELECT in any case. */
  predicate SelectAt(sql: string, a: int, b: int) {
    && 0 <= a <= b && b + 6 <= |sql|
    && Between(sql, 0, a, IsSpace) && Between(sql, a, b, LParen)
    && Spells(sql, b, "SELECT") && !WordAt(sql, b + 6)
  }

  lemma SelectFrom(t: string)
    ensures MatchesFrom(Cat(Lit("SELECT"), Edge), t, 0) <==> Spells(t, 0, "SELECT") && !WordAt(t, 6)
  {
    LitThen("SELECT", Edge, t, 0);
    if Spells(t, 0, "SELECT") {
      EdgeFrom(t, 6);
      assert FoldChar(t[0 + 5]) == FoldChar("SELECT"[5]);
      assert WordAt(t, 5);
    }
  }

  /** The characters of t are those of s from b on, where blanks follow. */
  lemma SelectMoved(s: string, b: nat, m: nat, t: string)
    requires b <= m <= |s| && t == s[b..m] && Between(s, m, |s|, IsSpace)
    ensures Spells(t, 0, "SELECT") && !WordAt(t, 6) <==> b + 6 <= m && Spells(s, b, "SELECT") && !WordAt(s, b + 6)
  {
    if b + 6 <= m {
      assert forall x :: 0 <= x < 6 ==> t[x] == s[b + x];
    }
    if b + 6 < m {
      assert t[6] == s[b + 6];
    } else if b + 6 < |s| {
      assert IsSpace(s[b + 6]);
    }
  }

  /** The check passes exactly when, after blanks and then opening parentheses, the word SELECT stands. */
  lemma StartsSelectIs(sql: string)
    ensures StartsSelect(sql) <==> exists a, b :: SelectAt(sql, a, b)
  {
    var a, m := StripIs(sql);
    var t := Strip(sql);
    var n := TrimLeftIs(t, LParen);
    var b := a + n;
    assert t[n..] == sql[b..m];
    SelectFrom(sql[b..m]);
    SelectMoved(sql, b, m, sql[b..m]);
    assert Between(sql, a, b, LParen) by {
      assert forall x :: a <= x < b ==> sql[x] == t[x - a];
    }
    if StartsSelect(sql) {
      assert SelectAt(sql, a, b);
    }
    if a', b' :| SelectAt(sql, a', b') {
      SelectPlace(sql, a, b, m, a', b');
      assert n < |t| ==> t[n] == sql[b];
    }
  }

  /** There is one place only where it can stand. */
  lemma SelectPlace(sql: string, a: nat, b: nat, m: nat, a': nat, b': nat)
    requires SelectAt(sql, a', b') && a <= b <= m <= |sql| && Between(sql, m, |sql|, IsSpace)
    requires Between(sql, 0, a, IsSpace) && (a < m ==> !IsSpace(sql[a])) && (a == m ==> m == |sql|)
    requires Between(sql, a, b, LParen) && (b < m ==> sql[b] != '(')
    ensures a == a' && b == b' && b + 6 <= m
  {
    assert FoldChar(sql[b' + 0]) == FoldChar("SELECT"[0]) && FoldChar(sql[b' + 5]) == FoldChar("SELECT"[5]);
    assert !IsSpace(sql[b' + 5]) && !IsSpace(sql[a']) && sql[b'] != '(';
  }

  // ---------------------------------------------------------------- reading a pattern from a position

  lemma FoundFrom(r: Re, s: string)
    ensures Found(r, s) <==> exists i: nat :: i <= |s| && MatchesFrom(r, s, i)
  {
    if Found(r, s) {
      var i, j :| 0 <= i <= j <= |s| && Matches(r, s, i, j);
      assert MatchesFrom(r, s, i);
    }
    if i: nat :| i <= |s| && MatchesFrom(r, s, i) {
      var j :| i <= j <= |s| && Matches(r, s, i, j);
    }
  }

  lemma LitFrom(w: string, s: string, i: nat)
    requires i <= |s|
    ensures MatchesFrom(Lit(w), s, i) <==> Spells(s, i, w)
  {
    if MatchesFrom(Lit(w), s, i) {
      var j :| i <= j <= |s| && Matches(Lit(w), s, i, j);
      LitMatches(w, s, i, j);
    }
    if Spells(s, i, w) {
      LitMatches(w, s, i, i + |w|);
    }
  }

  lemma LitThen(w: string, r: Re, s: string, i: nat)
    requires i <= |s|
    ensures MatchesFrom(Cat(Lit(w), r), s, i) <==> Spells(s, i, w) && MatchesFrom(r, s, i + |w|)
  {
    if MatchesFrom(Cat(Lit(w), r), s, i) {
      var j :| i <= j <= |s| && Matches(Cat(Lit(w), r), s, i, j);
      var m := Split(Lit(w), r, s, i, j);
      LitMatches(w, s, i, m);
    }
    if Spells(s, i, w) && MatchesFrom(r, s, i + |w|) {
      var j :| i + |w| <= j <= |s| && Matches(r, s, i + |w|, j);
      LitMatches(w, s, i, i + |w|);
      Join(Lit(w), r, s, i, i + |w|, j);
    }
  }

  lemma EdgeFrom(s: string, i: nat)
    requires i <= |s|
    ensures MatchesFrom(Edge, s, i) <==> AtEdge(s, i)
  {
    assert AtEdge(s, i) ==> Matches(Edge, s, i, i);
  }

  lemma EdgeThen(r: Re, s: string, i: nat)
    requires i <= |s|
    ensures MatchesFrom(Cat(Edge, r), s, i) <==> AtEdge(s, i) && MatchesFrom(r, s, i)
  {
    if MatchesFrom(Cat(Edge, r), s, i) {
      var j :| i <= j <= |s| && Matches(Cat(Edge, r), s, i, j);
      var m := Split(Edge, r, s, i, j);
    }
    if AtEdge(s, i) && MatchesFrom(r, s, i) {
      var j :| i <= j <= |s| && Matches(r, s, i, j);
      Join(Edge, r, s, i, i, j);
    }
  }

  /** Characters of the class from i to j. */
  predicate Run(s: string, i: int, j: int, k: Class) {
    0 <= i <= j <= |s| && forall x :: i <= x < j ==> Has(k, s[x])
  }

  lemma ManyThen(k: Class, r: Re, s: string, i: nat)
    requires i <= |s|
    ensures MatchesFrom(Cat(Many(k), r), s, i) <==> exists m :: Run(s, i, m, k) && MatchesFrom(r, s, m)
  {
    if MatchesFrom(Cat(Many(k), r), s, i) {
      var j :| i <= j <= |s| && Matches(Cat(Many(k), r), s, i, j);
      var m := Split(Many(k), r, s, i, j);
      assert Run(s, i, m, k);
    }
    if m :| Run(s, i, m, k) && MatchesFrom(r, s, m) {
      var j :| m <= j <= |s| && Matches(r, s, m, j);
      Join(Many(k), r, s, i, m, j);
    }
  }

  lemma PlusThen(k: Class, r: Re, s: string, i: nat)
    requires i <= |s|
    ensures MatchesFrom(Cat(Plus(k), r), s, i) <==> exists m :: i < m && Run(s, i, m, k) && MatchesFrom(r, s, m)
  {
    if MatchesFrom(Cat(Plus(k), r), s, i) {
      var j :| i <= j <= |s| && Matches(Cat(Plus(k), r), s, i, j);
      var m := Split(Plus(k), r, s, i, j);
      var l := Split(One(k), Many(k), s, i, m);
      assert Run(s, i, m, k);
    }
    if m :| i < m && Run(s, i, m, k) && MatchesFrom(r, s, m) {
      var j :| m <= j <= |s| && Matches(r, s, m, j);
      Join(One(k), Many(k), s, i, i + 1, m);
      Join(Plus(k), r, s, i, m, j);
    }
  }

  lemma PlusFrom(k: Class, s: string, i: nat)
    requires i <= |s|
    ensures MatchesFrom(Plus(k), s, i) <==> i < |s| && Has(k, s[i])
  {
    if MatchesFrom(Plus(k), s, i) {
      var j :| i <= j <= |s| && Matches(Plus(k), s, i, j);
      var l := Split(One(k), Many(k), s, i, j);
    }
    if i < |s| && Has(k, s[i]) {
      Join(One(k), Many(k), s, i, i + 1, i + 1);
    }
  }

  // ---------------------------------------------------------------- the injection patterns

  /** ' and ; and, after any blanks, DROP. */
  predicate QuoteDropAt(s: string, i: nat, j: nat) {
    Spells(s, i, "';") && Run(s, i + 2, j, Space) && Spells(s, j, "DROP")
  }

  lemma QuoteDropFrom(s: string, i: nat)
    requires i <= |s|
    ensures MatchesFrom(QuoteDrop(), s, i) <==> exists j: nat :: QuoteDropAt(s, i, j)
  {
    LitThen("';", Cat(Many(Space), Lit("DROP")), s, i);
    if MatchesFrom(QuoteDrop(), s, i) {
      ManyThen(Space, Lit("DROP"), s, i + 2);
      var j: nat :| Run(s, i + 2, j, Space) && MatchesFrom(Lit("DROP"), s, j);
      LitFrom("DROP", s, j);
      assert QuoteDropAt(s, i, j);
    }
    if j: nat :| QuoteDropAt(s, i, j) {
      LitFrom("DROP", s, j);
      ManyThen(Space, Lit("DROP"), s, i + 2);
    }
  }

  lemma QuoteDropIs(s: string)
    ensures Found(QuoteDrop(), s) <==> exists i: nat, j: nat :: QuoteDropAt(s, i, j)
  {
    FoundFrom(QuoteDrop(), s);
    forall i: nat | i <= |s| ensures MatchesFrom(QuoteDrop(), s, i) <==> exists j: nat :: QuoteDropAt(s, i, j) {
      QuoteDropFrom(s, i);
    }
    if i: nat, j: nat :| QuoteDropAt(s, i, j) {
      assert i <= |s| && MatchesFrom(QuoteDrop(), s, i);
    }
  }

  /** UNION and, after at least one blank, SELECT. */
  predicate UnionSelectAt(s: string, i: nat, j: nat) {
    Spells(s, i, "UNION") && i + 5 < j && Run(s, i + 5, j, Space) && Spells(s, j, "SELECT")
  }

  lemma UnionSelectFrom(s: string, i: nat)
    requires i <= |s|
    ensures MatchesFrom(UnionSelect(), s, i) <==> exists j: nat :: UnionSelectAt(s, i, j)
  {
    LitThen("UNION", Cat(Plus(Space), Lit("SELECT")), s, i);
    if MatchesFrom(UnionSelect(), s, i) {
      PlusThen(Space, Lit("SELECT"), s, i + 5);
      var j: nat :| i + 5 < j && Run(s, i + 5, j, Space) && MatchesFrom(Lit("SELECT"), s, j);
      LitFrom("SELECT", s, j);
      assert UnionSelectAt(s, i, j);
    }
    if j: nat :| UnionSelectAt(s, i, j) {
      LitFrom("SELECT", s, j);
      PlusThen(Space, Lit("SELECT"), s, i + 5);
    }
  }

  lemma UnionSelectIs(s: string)
    ensures Found(UnionSelect(), s) <==> exists i: nat, j: nat :: UnionSelectAt(s, i, j)
  {
    FoundFrom(UnionSelect(), s);
    forall i: nat | i <= |s| ensures MatchesFrom(UnionSelect(), s, i) <==> exists j: nat :: UnionSelectAt(s, i, j) {
      UnionSelectFrom(s, i);
    }
    if i: nat, j: nat :| UnionSelectAt(s, i, j) {
      assert i <= |s| && MatchesFrom(UnionSelect(), s, i);
    }
  }

  /** Two dashes and a blank. */
  predicate LineCommentAt(s: string, i: nat) {
    Spells(s, i, "--") && i + 2 < |s| && IsSpace(s[i + 2])
  }

  lemma LineCommentIs(s: string)
    ensures Found(LineComment(), s) <==> exists i: nat :: LineCommentAt(s, i)
  {
    FoundFrom(LineComment(), s);
    forall i: nat | i <= |s| ensures MatchesFrom(LineComment(), s, i) <==> LineCommentAt(s, i) {
      LitThen("--", One(Space), s, i);
      if LineCommentAt(s, i) {
        assert Matches(One(Space), s, i + 2, i + 3);
      }
    }
  }

  /** Slash and star, and on the same line star and slash. */
  predicate BlockCommentAt(s: string, i: nat, j: nat) {
    Spells(s, i, "/*") && i + 2 <= j <= |s| && '\n' !in s[i + 2..j] && Spells(s, j, "*/")
  }

  lemma OneLine(s: string, i: nat, j: nat)
    requires i <= j <= |s|
    ensures Run(s, i, j, Dot) <==> '\n' !in s[i..j]
  {
    if Run(s, i, j, Dot) {
      forall x | 0 <= x < j - i ensures s[i..j][x] != '\n' {
        assert Has(Dot, s[i + x]);
      }
    }
    if '\n' !in s[i..j] {
      forall x | i <= x < j ensures Has(Dot, s[x]) {
        assert s[x] == s[i..j][x - i];
      }
    }
  }

  lemma BlockCommentFrom(s: string, i: nat)
    requires i <= |s|
    ensures MatchesFrom(BlockComment(), s, i) <==> exists j: nat :: BlockCommentAt(s, i, j)
  {
    LitThen("/*", Cat(Many(Dot), Lit("*/")), s, i);
    if MatchesFrom(BlockComment(), s, i) {
      ManyThen(Dot, Lit("*/"), s, i + 2);
      var j: nat :| Run(s, i + 2, j, Dot) && MatchesFrom(Lit("*/"), s, j);
      LitFrom("*/", s, j);
      OneLine(s, i + 2, j);
      assert BlockCommentAt(s, i, j);
    }
    if j: nat :| BlockCommentAt(s, i, j) {
      LitFrom("*/", s, j);
      OneLine(s, i + 2, j);
      ManyThen(Dot, Lit("*/"), s, i + 2);
    }
  }

  lemma BlockCommentIs(s: string)
    ensures Found(BlockComment(), s) <==> exists i: nat, j: nat :: BlockCommentAt(s, i, j)
  {
    FoundFrom(BlockComment(), s);
    forall i: nat | i <= |s| ensures MatchesFrom(BlockComment(), s, i) <==> exists j: nat :: BlockCommentAt(s, i, j) {
      BlockCommentFrom(s, i);
    }
    if i: nat, j: nat :| BlockCommentAt(s, i, j) {
      assert i <= |s| && MatchesFrom(BlockComment(), s, i);
    }
  }

  /** The word OR, blanks, quotes and digits from a to b, an equals sign, blanks, and at d another quote or digit. */
  predicate OrEquationAt(s: string, i: nat, a: nat, b: nat, d: nat) {
    && Spells(s, i, "OR") && !WordAt(s, i - 1) && !WordAt(s, i + 2)
    && i + 2 < a < b < d < |s| && Run(s, i + 2, a, Space) && Run(s, a, b, QuoteDigit)
    && s[b] == '=' && Run(s, b + 1, d, Space) && Has(QuoteDigit, s[d])
  }

  predicate EquationAt(s: string, a: nat, b: nat, d: nat) {
    && a < b < d < |s| && Run(s, a, b, QuoteDigit)
    && s[b] == '=' && Run(s, b + 1, d, Space) && Has(QuoteDigit, s[d])
  }

  lemma EquationFrom(s: string, a: nat)
    requires a <= |s|
    ensures MatchesFrom(Equation(), s, a) <==> exists b: nat, d: nat :: EquationAt(s, a, b, d)
  {
    var value := Cat(Many(Space), Plus(QuoteDigit));
    PlusThen(QuoteDigit, Cat(Lit("="), value), s, a);
    forall b: nat | b <= |s|
      ensures MatchesFrom(Cat(Lit("="), value), s, b) <==>
                && b < |s| && s[b] == '='
                && exists d: nat :: b < d < |s| && Run(s, b + 1, d, Space) && Has(QuoteDigit, s[d])
    {
      LitThen("=", value, s, b);
      if b < |s| {
        ManyThen(Space, Plus(QuoteDigit), s, b + 1);
        forall d: nat | d <= |s| ensures MatchesFrom(Plus(QuoteDigit), s, d) <==> d < |s| && Has(QuoteDigit, s[d]) {
          PlusFrom(QuoteDigit, s, d);
        }
      }
      assert Spells(s, b, "=") <==> b < |s| && s[b] == '=';
    }
    if b: nat, d: nat :| EquationAt(s, a, b, d) {
      assert a < b && Run(s, a, b, QuoteDigit) && MatchesFrom(Cat(Lit("="), value), s, b);
    }
    if MatchesFrom(Equation(), s, a) {
      var b: nat :| a < b && Run(s, a, b, QuoteDigit) && MatchesFrom(Cat(Lit("="), value), s, b);
      var d: nat :| b < d < |s| && Run(s, b + 1, d, Space) && Has(QuoteDigit, s[d]);
      assert EquationAt(s, a, b, d);
    }
  }

  lemma OrEquationFrom(s: string, i: nat)
    requires i <= |s|
    ensures MatchesFrom(OrEquation(), s, i) <==> exists a: nat, b: nat, d: nat :: OrEquationAt(s, i, a, b, d)
  {
    var gap := Cat(Plus(Space), Equation());
    EdgeThen(Cat(Lit("OR"), Cat(Edge, gap)), s, i);
    LitThen("OR", Cat(Edge, gap), s, i);
    if Spells(s, i, "OR") {
      assert FoldChar(s[i + 0]) == FoldChar("OR"[0]) == 'o' && FoldChar(s[i + 1]) == FoldChar("OR"[1]) == 'r';
      assert WordAt(s, i) && WordAt(s, i + 1);
      EdgeThen(gap, s, i + 2);
      PlusThen(Space, Equation(), s, i + 2);
    }
    if MatchesFrom(OrEquation(), s, i) {
      var a: nat :| i + 2 < a && Run(s, i + 2, a, Space) && MatchesFrom(Equation(), s, a);
      EquationFrom(s, a);
      var b: nat, d: nat :| EquationAt(s, a, b, d);
      assert OrEquationAt(s, i, a, b, d);
    }
    if a: nat, b: nat, d: nat :| OrEquationAt(s, i, a, b, d) {
      assert EquationAt(s, a, b, d);
      EquationFrom(s, a);
    }
  }

  lemma OrEquationIs(s: string)
    ensures Found(OrEquation(), s) <==> exists i: nat, a: nat, b: nat, d: nat :: OrEquationAt(s, i, a, b, d)
  {
    FoundFrom(OrEquation(), s);
    forall i: nat | i <= |s|
      ensures MatchesFrom(OrEquation(), s, i) <==> exists a: nat, b: nat, d: nat :: OrEquationAt(s, i, a, b, d)
    {
      OrEquationFrom(s, i);
    }
    if i: nat, a: nat, b: nat, d: nat :| OrEquationAt(s, i, a, b, d) {
      assert i <= |s| && MatchesFrom(OrEquation(), s, i);
    }
  }

  /** A word that starts with xp_ and goes on. */
  predicate XpCallAt(s: string, i: nat) {
    Spells(s, i, "xp_") && !WordAt(s, i - 1) && WordAt(s, i + 3)
  }

  lemma XpCallIs(s: string)
    ensures Found(XpCall(), s) <==> exists i: nat :: XpCallAt(s, i)
  {
    FoundFrom(XpCall(), s);
    forall i: nat | i <= |s| ensures MatchesFrom(XpCall(), s, i) <==> XpCallAt(s, i) {
      EdgeThen(Cat(Lit("xp_"), Plus(Word)), s, i);
      LitThen("xp_", Plus(Word), s, i);
      if Spells(s, i, "xp_") {
        assert FoldChar(s[i + 0]) == FoldChar("xp_"[0]) == 'x';
        assert WordAt(s, i);
        PlusFrom(Word, s, i + 3);
      }
    }
  }

  /** The six patterns of the service, in their order. */
  lemma InjectionReads(s: string)
    ensures var f := k => 0 <= k < |Injection()| && Found(Injection()[k], s);
      && |Injection()| == 6
      && (f(0) <==> exists i: nat, j: nat :: QuoteDropAt(s, i, j))
      && (f(1) <==> exists i: nat, j: nat :: UnionSelectAt(s, i, j))
      && (f(2) <==> exists i: nat :: LineCommentAt(s, i))
      && (f(3) <==> exists i: nat, j: nat :: BlockCommentAt(s, i, j))
      && (f(4) <==> exists i: nat, a: nat, b: nat, d: nat :: OrEquationAt(s, i, a, b, d))
      && (f(5) <==> exists i: nat :: XpCallAt(s, i))
  {
    QuoteDropIs(s);
    UnionSelectIs(s);
    LineCommentIs(s);
    BlockCommentIs(s);
    OrEquationIs(s);
    XpCallIs(s);
  }
}
