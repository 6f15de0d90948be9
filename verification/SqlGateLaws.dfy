/** What the gate guarantees: coverage of the reference scan, the keyword check as a tokeniser, case and schema laws. */
module SqlGateLaws {
  import opened Text
  import opened Regex
  import opened SqlGate

  // ---------------------------------------------------------------- coverage of the non-overlapping scan

  lemma RefSpellsWord(s: string, i: nat)
    requires RefAt(s, i)
    ensures i + 4 < |s| && forall x :: i <= x < i + 4 ==> IsWord(s[x])
  {
    assert GapAt(s, i + 4);
    if Spells(s, i, "FROM") {
      SpelledIsWord(s, i, "FROM");
    } else {
      SpelledIsWord(s, i, "JOIN");
    }
  }

  lemma SpelledIsWord(s: string, i: nat, w: string)
    requires |w| == 4 && Spells(s, i, w) && forall x :: 0 <= x < 4 ==> IsWord(w[x])
    ensures i + 4 <= |s| && forall x :: i <= x < i + 4 ==> IsWord(s[x])
  {
    forall x | i <= x < i + 4 ensures IsWord(s[x]) {
      assert FoldChar(s[i + (x - i)]) == FoldChar(w[x - i]);
    }
  }

  /** A second occurrence inside a match can only be the match's own captured identifier. */
  lemma InsideRef(s: string, i: nat, p: nat)
    requires RefAt(s, i) && RefAt(s, p) && i < p < RefOf(s, i).stop
    ensures p == RefOf(s, i).start
  {
    var m := RefOf(s, i);
    RefSpellsWord(s, i);
    RefSpellsWord(s, p);
    assert IsWord(s[p]) && !WordAt(s, p - 1);
    assert forall x :: i + 4 <= x < m.start ==> Has(Space, s[x]);
    assert forall x :: m.start <= x < m.stop ==> Has(Word, s[x]);
    assert p - 1 < i + 4 || m.start <= p - 1 ==> WordAt(s, p - 1);
  }

  /** Every occurrence of the pattern is a match of the scan, or the identifier some match captured. */
  lemma {:induction false} ScanReaches(s: string, i: nat, p: nat) returns (m: Ref)
    requires i <= p <= |s| && RefAt(s, p)
    ensures m in FindFrom(s, i) && (m.kw == p || m.start == p)
    decreases |s| - i
  {
    if RefAt(s, i) {
      m := RefOf(s, i);
      if m.stop <= p {
        m := ScanReaches(s, m.stop, p);
      } else if i < p {
        InsideRef(s, i, p);
      }
    } else {
      m := ScanReaches(s, i + 1, p);
    }
  }

  /** No match starts at an identifier that a match has consumed. */
  lemma {:induction false} ConsumedOnce(s: string, i: nat, m: Ref, q: Ref)
    requires i <= |s| && m in FindFrom(s, i) && q in FindFrom(s, i)
    ensures m.start != q.kw
    decreases |s| - i
  {
    if RefAt(s, i) {
      var f := RefOf(s, i);
      if m != f && q != f {
        ConsumedOnce(s, f.stop, m, q);
      }
    } else {
      ConsumedOnce(s, i + 1, m, q);
    }
  }

  /** An occurrence is skipped exactly when it is the identifier captured by a match. */
  lemma SkippedExactly(s: string, p: nat)
    requires p <= |s| && RefAt(s, p)
    ensures (forall q :: q in FindFrom(s, 0) ==> q.kw != p) <==> (exists m :: m in FindFrom(s, 0) && m.start == p)
  {
    var m := ScanReaches(s, 0, p);
    if m.start == p {
      forall q | q in FindFrom(s, 0) ensures q.kw != p {
        ConsumedOnce(s, 0, m, q);
      }
    } else if k :| k in FindFrom(s, 0) && k.start == p {
      ConsumedOnce(s, 0, k, m);
      assert false;
    }
  }

  ghost predicate FoundAt(s: string, p: nat) {
    exists m :: m in FindFrom(s, 0) && m.kw == p
  }

  predicate Captures(s: string, q: nat, p: nat) {
    RefAt(s, q) && RefOf(s, q).start == p
  }

  /** Some earlier match captured an identifier that starts at p. */
  ghost predicate Captured(s: string, p: nat) {
    exists q: nat :: q < p && FoundAt(s, q) && Captures(s, q, p)
  }

  /** The scan without its recursion: what is found at p depends only on what was found before p. */
  lemma FoundRule(s: string, p: nat)
    requires p <= |s|
    ensures FoundAt(s, p) <==> RefAt(s, p) && !Captured(s, p)
  {
    if m :| m in FindFrom(s, 0) && m.kw == p {
      FoundIsRef(s, 0, m);
    }
    if RefAt(s, p) {
      SkippedExactly(s, p);
      if m :| m in FindFrom(s, 0) && m.start == p {
        FoundIsRef(s, 0, m);
        assert FoundAt(s, m.kw) && Captures(s, m.kw, p);
      }
      if q: nat :| q < p && FoundAt(s, q) && Captures(s, q, p) {
        var m :| m in FindFrom(s, 0) && m.kw == q;
        FoundIsRef(s, 0, m);
      }
    }
  }

  /** A captured identifier at which the pattern occurs again is the keyword itself. */
  lemma CapturedKeyword(s: string, m: Ref)
    requires m in FindFrom(s, 0) && RefAt(s, m.start)
    ensures SameFold(m.Name(s), "FROM") || SameFold(m.Name(s), "JOIN")
  {
    FoundIsRef(s, 0, m);
    SpelledWhole(s, m, if Spells(s, m.start, "FROM") then "FROM" else "JOIN");
  }

  lemma SpelledWhole(s: string, m: Ref, w: string)
    requires |w| == 4 && (forall x :: 0 <= x < 4 ==> IsWord(w[x]))
    requires RefAt(s, m.kw) && m == RefOf(s, m.kw) && m.start + 4 < |s|
    requires Spells(s, m.start, w) && IsSpace(s[m.start + 4])
    ensures SameFold(m.Name(s), w)
  {
    var p := m.start;
    SpelledIsWord(s, p, w);
    SkipIs(s, p, p + 4, Word);
    assert m.Name(s) == s[p..p + 4];
    forall x | 0 <= x < 4 ensures FoldChar(s[p..p + 4][x]) == FoldChar(w[x]) {
      assert s[p..p + 4][x] == s[p + x];
    }
  }

  ghost predicate EveryRefKnown(s: string, tables: Tables) {
    forall p: nat :: p <= |s| && RefAt(s, p) ==> Known(RefOf(s, p).Name(s), tables)
  }

  ghost predicate Reserved(tables: Tables) {
    Known("FROM", tables) || Known("JOIN", tables)
  }

  /** The pattern does not occur again where a known identifier was captured. */
  lemma NoRefCaptured(s: string, tables: Tables, m: Ref)
    requires RefsKnown(s, tables) && !Reserved(tables) && m in FindFrom(s, 0)
    ensures !RefAt(s, m.start)
  {
    FoundIsRef(s, 0, m);
    if RefAt(s, m.start) {
      CapturedKeyword(s, m);
      assert false;
    }
  }

  /** Without a table called from or join, the scan's verdict speaks for every occurrence. */
  lemma ScanCovers(s: string, tables: Tables)
    requires RefsKnown(s, tables) && !Reserved(tables)
    ensures EveryRefKnown(s, tables)
  {
    forall p: nat | p <= |s| && RefAt(s, p) ensures Known(RefOf(s, p).Name(s), tables) {
      var m := ScanReaches(s, 0, p);
      FoundIsRef(s, 0, m);
      NoRefCaptured(s, tables, m);
    }
  }

  // ---------------------------------------------------------------- the keyword check is a tokeniser

  /** A maximal run of word characters. */
  predicate IsRun(s: string, i: int, j: int) {
    && 0 <= i < j <= |s| && (forall x :: i <= x < j ==> IsWord(s[x]))
    && !WordAt(s, i - 1) && !WordAt(s, j)
  }

  datatype Token = Token(start: nat, stop: nat)

  function Tokens(s: string, i: nat): seq<Token>
    requires i <= |s|
    decreases |s| - i
  {
    if i == |s| then []
    else if IsWord(s[i]) then var j := Skip(s, i, Word); [Token(i, j)] + Tokens(s, j)
    else Tokens(s, i + 1)
  }

  lemma {:induction false} TokensAreRuns(s: string, i: nat, t: Token)
    requires i <= |s| && !(WordAt(s, i - 1) && WordAt(s, i))
    ensures t in Tokens(s, i) <==> i <= t.start && IsRun(s, t.start, t.stop)
    decreases |s| - i
  {
    if i < |s| && IsWord(s[i]) {
      var j := Skip(s, i, Word);
      assert forall x :: i <= x < j ==> Has(Word, s[x]);
      assert j < |s| ==> !Has(Word, s[j]);
      assert i < j;
      assert IsRun(s, i, j);
      TokensAreRuns(s, j, t);
      if i <= t.start < j && IsRun(s, t.start, t.stop) {
        assert i < t.start ==> WordAt(s, t.start - 1);
        assert t.stop < j ==> WordAt(s, t.stop);
      }
    } else if i < |s| {
      TokensAreRuns(s, i + 1, t);
    }
  }

  predicate AllWord(w: string) {
    w != "" && forall x :: 0 <= x < |w| ==> IsWord(w[x])
  }

  /** \bW\b matches exactly the maximal runs that spell W. */
  lemma WordReIsRun(w: string, s: string, i: nat, j: nat)
    requires AllWord(w) && i <= j <= |s|
    ensures Matches(WordRe(w), s, i, j) <==> IsRun(s, i, j) && SameFold(s[i..j], w)
  {
    if Matches(WordRe(w), s, i, j) {
      var i0 := Split(Edge, Cat(Lit(w), Edge), s, i, j);
      var k := Split(Lit(w), Edge, s, i, j);
      LitMatches(w, s, i, j);
      SpelledRun(w, s, i, j);
    }
    if IsRun(s, i, j) && SameFold(s[i..j], w) {
      forall x | 0 <= x < |w| ensures FoldChar(s[i + x]) == FoldChar(w[x]) {
        assert s[i + x] == s[i..j][x];
      }
      LitMatches(w, s, i, j);
      Join(Lit(w), Edge, s, i, j, j);
      Join(Edge, Cat(Lit(w), Edge), s, i, i, j);
    }
  }

  lemma SpelledRun(w: string, s: string, i: nat, j: nat)
    requires AllWord(w) && j == i + |w| && Spells(s, i, w) && AtEdge(s, i) && AtEdge(s, j)
    ensures IsRun(s, i, j) && SameFold(s[i..j], w)
  {
    forall x | i <= x < j ensures IsWord(s[x]) && FoldChar(s[x]) == FoldChar(w[x - i]) {
      assert FoldChar(s[i + (x - i)]) == FoldChar(w[x - i]);
      assert IsWord(w[x - i]);
    }
    assert WordAt(s, i) && WordAt(s, j - 1);
  }

  /** \bEXEC(?:UTE)?\b is \bEXEC\b or \bEXECUTE\b. */
  lemma ExecReIsEither(s: string, i: nat, j: nat)
    requires i <= j <= |s|
    ensures Matches(ExecRe(), s, i, j) <==> Matches(WordRe("EXEC"), s, i, j) || Matches(WordRe("EXECUTE"), s, i, j)
  {
    if Matches(ExecRe(), s, i, j) {
      ExecHead(s, i, j);
    }
    if Matches(WordRe("EXEC"), s, i, j) || Matches(WordRe("EXECUTE"), s, i, j) {
      var w := if Matches(WordRe("EXEC"), s, i, j) then "EXEC" else "EXECUTE";
      var i0 := Split(Edge, Cat(Lit(w), Edge), s, i, j);
      var k := Split(Lit(w), Edge, s, i, j);
      LitMatches(w, s, i, j);
      ExecTail(w, s, i, j);
    }
  }

  lemma ExecHead(s: string, i: nat, j: nat)
    requires i <= j <= |s| && Matches(ExecRe(), s, i, j)
    ensures Matches(WordRe("EXEC"), s, i, j) || Matches(WordRe("EXECUTE"), s, i, j)
  {
    var ute := Alt(Lit("UTE"), Eps);
    var i0 := Split(Edge, Cat(Lit("EXEC"), Cat(ute, Edge)), s, i, j);
    var k := Split(Lit("EXEC"), Cat(ute, Edge), s, i, j);
    var l := Split(ute, Edge, s, k, j);
    LitMatches("EXEC", s, i, k);
    LitMatches("UTE", s, k, j);
    var w := if k == j then "EXEC" else "EXECUTE";
    if k < j {
      assert "EXEC" + "UTE" == w;
    }
    LitMatches(w, s, i, j);
    Join(Lit(w), Edge, s, i, j, j);
    Join(Edge, Cat(Lit(w), Edge), s, i, i, j);
  }

  lemma ExecTail(w: string, s: string, i: nat, j: nat)
    requires w == "EXEC" || w == "EXECUTE"
    requires j == i + |w| <= |s| && Spells(s, i, w) && AtEdge(s, i) && AtEdge(s, j)
    ensures Matches(ExecRe(), s, i, j)
  {
    var ute := Alt(Lit("UTE"), Eps);
    forall x | 0 <= x < 4 ensures FoldChar(s[i + x]) == FoldChar("EXEC"[x]) {
      assert FoldChar(s[i + x]) == FoldChar(w[x]);
    }
    LitMatches("EXEC", s, i, i + 4);
    if w == "EXECUTE" {
      forall x | 0 <= x < 3 ensures FoldChar(s[i + 4 + x]) == FoldChar("UTE"[x]) {
        assert FoldChar(s[i + (4 + x)]) == FoldChar(w[4 + x]);
      }
      LitMatches("UTE", s, i + 4, j);
    }
    Join(ute, Edge, s, i + 4, j, j);
    Join(Lit("EXEC"), Cat(ute, Edge), s, i, i + 4, j);
    Join(Edge, Cat(Lit("EXEC"), Cat(ute, Edge)), s, i, i, j);
  }

  /** The words that a statement must not contain. */
  function ForbiddenWords(): seq<string> {
    ["INSERT", "UPDATE", "DELETE", "DROP", "TRUNCATE", "ALTER", "CREATE", "GRANT", "REVOKE", "EXEC", "EXECUTE"]
  }

  /** Some token of the statement is the word w, whatever its case. */
  ghost predicate HasToken(s: string, w: string) {
    exists t :: t in Tokens(s, 0) && t.start <= t.stop <= |s| && SameFold(s[t.start..t.stop], w)
  }

  lemma WordFound(w: string, s: string)
    requires AllWord(w)
    ensures Found(WordRe(w), s) <==> HasToken(s, w)
  {
    if i, j :| 0 <= i <= j <= |s| && Matches(WordRe(w), s, i, j) {
      WordReIsRun(w, s, i, j);
      TokensAreRuns(s, 0, Token(i, j));
    }
    if HasToken(s, w) {
      var t :| t in Tokens(s, 0) && t.start <= t.stop <= |s| && SameFold(s[t.start..t.stop], w);
      TokensAreRuns(s, 0, t);
      WordReIsRun(w, s, t.start, t.stop);
    }
  }

  lemma ExecFound(s: string)
    ensures Found(ExecRe(), s) <==> HasToken(s, "EXEC") || HasToken(s, "EXECUTE")
  {
    WordFound("EXEC", s);
    WordFound("EXECUTE", s);
    forall i, j | 0 <= i <= j <= |s|
      ensures Matches(ExecRe(), s, i, j) <==> Matches(WordRe("EXEC"), s, i, j) || Matches(WordRe("EXECUTE"), s, i, j)
    {
      ExecReIsEither(s, i, j);
    }
  }

  ghost predicate ReadsWords(ps: seq<Re>, ws: seq<string>) {
    && |ps| == 10 && |ws| == 11
    && (forall k :: 0 <= k < 9 ==> AllWord(ws[k]) && ps[k] == WordRe(ws[k]))
    && ps[9] == ExecRe() && ws[9] == "EXEC" && ws[10] == "EXECUTE"
  }

  lemma PatternsReadWords()
    ensures ReadsWords(Forbidden(), ForbiddenWords())
  {
    forall k | 0 <= k < 9 ensures AllWord(Keywords()[k]) {
      KeywordIsWord(k);
    }
  }

  predicate Upper(w: string) {
    w != "" && forall x :: 0 <= x < |w| ==> 'A' <= w[x] <= 'Z'
  }

  lemma KeywordIsWord(k: nat)
    requires k < 9
    ensures AllWord(Keywords()[k])
  {
    assert Upper(Keywords()[k]) by {
      if k < 5 {
        assert Upper("INSERT") && Upper("UPDATE") && Upper("DELETE") && Upper("DROP") && Upper("TRUNCATE");
      } else {
        assert Upper("ALTER") && Upper("CREATE") && Upper("GRANT") && Upper("REVOKE");
      }
    }
  }

  lemma WordsFound(ps: seq<Re>, ws: seq<string>, s: string)
    requires ReadsWords(ps, ws)
    ensures NoneFound(ps, s) <==> forall w :: w in ws ==> !HasToken(s, w)
  {
    forall k | 0 <= k < 9 ensures Found(ps[k], s) <==> HasToken(s, ws[k]) {
      WordFound(ws[k], s);
    }
    ExecFound(s);
    if forall w :: w in ws ==> !HasToken(s, w) {
      forall k | 0 <= k < 10 ensures !Found(ps[k], s) {
        assert ws[k] in ws && ws[10] in ws;
      }
    }
    if NoneFound(ps, s) {
      forall w | w in ws ensures !HasToken(s, w) {
        var k :| 0 <= k < 11 && ws[k] == w;
        assert !Found(ps[if k < 9 then k else 9], s);
      }
    }
  }

  /** The ten forbidden-statement patterns fail together exactly when some token is a forbidden word. */
  lemma KeywordGateIsTokeniser(s: string)
    ensures NoneFound(Forbidden(), s) <==> forall w :: w in ForbiddenWords() ==> !HasToken(s, w)
  {
    PatternsReadWords();
    WordsFound(Forbidden(), ForbiddenWords(), s);
  }

  // ---------------------------------------------------------------- case and schema

  lemma RefBlind(s: string, t: string, i: nat)
    requires SameFold(s, t) && i <= |s|
    ensures RefAt(s, i) == RefAt(t, i)
    ensures RefAt(s, i) ==> RefOf(s, i) == RefOf(t, i)
  {
    SameEdges(s, t);
    assert Spells(s, i, "FROM") == Spells(t, i, "FROM");
    assert Spells(s, i, "JOIN") == Spells(t, i, "JOIN");
    if i + 4 < |s| {
    }
  }

  lemma {:induction false} FindBlind(s: string, t: string, i: nat)
    requires SameFold(s, t) && i <= |s|
    ensures FindFrom(s, i) == FindFrom(t, i)
    decreases |s| - i
  {
    RefBlind(s, t, i);
    if i == |s| {
    } else {
      if RefAt(s, i) {
        FindBlind(s, t, RefOf(s, i).stop);
      } else {
        FindBlind(s, t, i + 1);
      }
    }
  }

  lemma StartsBlind(s: string, t: string)
    requires SameFold(s, t)
    ensures StartsSelect(s) == StartsSelect(t)
  {
    SameTrimLeft(s, t, IsSpace);
    SameTrimRight(TrimLeft(s, IsSpace), TrimLeft(t, IsSpace), IsSpace);
    SameTrimLeft(Strip(s), Strip(t), LParen);
    var a, b, r := TrimLeft(Strip(s), LParen), TrimLeft(Strip(t), LParen), Cat(Lit("SELECT"), Edge);
    forall j | 0 <= j <= |a| ensures Matches(r, a, 0, j) == Matches(r, b, 0, j) {
      SameMatch(r, a, b, 0, j);
    }
  }

  /** The verdict depends on the statement only up to case, check by check. */
  lemma GateIgnoresCase(g: Gate, s: string, t: string, tables: Tables)
    requires SameFold(s, t)
    ensures Passes(g, s, tables) == Passes(g, t, tables)
    ensures forall c: Check :: !c.UnknownTable? ==> Fails(g, c, s, tables) == Fails(g, c, t, tables)
  {
    StartsBlind(s, t);
    forall r ensures Found(r, s) == Found(r, t) {
      CaseBlind(r, s, t);
    }
    FindBlind(s, t, 0);
    forall m | m in FindFrom(s, 0) ensures Known(m.Name(s), tables) == Known(m.Name(t), tables) {
    }
  }

  /** More tables never turn an accepted statement into a rejected one. */
  lemma GateMonotone(g: Gate, s: string, tables: Tables, more: Tables)
    requires Passes(g, s, tables) && tables <= more
    ensures Passes(g, s, more)
  {
    forall m | m in FindFrom(s, 0) ensures Known(m.Name(s), more) {
      assert Known(m.Name(s), tables);
    }
  }
}
