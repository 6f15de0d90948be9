/** For which schemas an accepted statement is known to reference known tables only. */
module SqlCoverage {
  import opened Text
  import opened Regex
  import opened SqlGate
  import opened SqlGateLaws
  import opened SqlWrapper

  /** A statement whose second reference hides behind a table called like a keyword. */
  function Hiding(kw: string, z: string): string {
    "SELECT 1 FROM " + kw + " " + z
  }

  predicate Zs(z: string) {
    z != "" && forall x :: 0 <= x < |z| ==> z[x] == 'z'
  }

  lemma {:induction false} LongerThanAll(tables: Tables) returns (n: nat)
    ensures n > 0 && forall t :: t in tables ==> |t| < n
  {
    if tables == {} {
      n := 1;
    } else {
      var t :| t in tables;
      n := LongerThanAll(tables - {t});
      n := if |t| < n then n else |t| + 1;
    }
  }

  lemma FreshName(tables: Tables) returns (z: string)
    ensures Zs(z) && !Known(z, tables)
  {
    var n := LongerThanAll(tables);
    z := seq(n, i => 'z');
  }

  /** What the text of Hiding looks like. */
  ghost predicate Layout(s: string, z: string) {
    && Zs(z) && |s| == 19 + |z|
    && s[..14] == "SELECT 1 FROM " && s[18] == ' '
    && (s[14..18] == "FROM" || s[14..18] == "JOIN")
    && s[19..] == z
  }

  lemma Chars(s: string, z: string)
    requires Layout(s, z)
    ensures forall x :: 0 <= x < 14 ==> s[x] == "SELECT 1 FROM "[x]
    ensures s[14] == 'F' || s[14] == 'J'
    ensures FoldChar(s[15]) in {'r', 'o'} && FoldChar(s[16]) in {'o', 'i'} && FoldChar(s[17]) in {'m', 'n'}
    ensures forall x :: 19 <= x < |s| ==> s[x] == 'z'
  {
    assert forall x :: 0 <= x < 14 ==> s[x] == s[..14][x];
    assert forall x :: 0 <= x < 4 ==> s[14 + x] == s[14..18][x];
    forall x | 19 <= x < |s| ensures s[x] == 'z' {
      assert s[x] == s[19..][x - 19];
    }
    assert s[14] == s[14 + 0] == s[14..18][0];
  }

  lemma OnlyHookIsN(s: string, z: string)
    requires Layout(s, z)
    ensures forall x :: 0 <= x < |s| ==> (Hook(s[x]) ==> x == 17 && FoldChar(s[x]) == 'n')
  {
    Chars(s, z);
    var h := "SELECT 1 FROM ";
    forall x | 0 <= x < 14 ensures !Hook(s[x]) {
      assert s[x] == h[x] && !Hook(h[x]);
    }
  }

  lemma NoPattern(s: string, z: string)
    requires Layout(s, z)
    ensures NoneFound(Forbidden(), s) && NoneFound(Injection(), s)
  {
    OnlyHookIsN(s, z);
    forall k: nat | k < 10 ensures !Found(Forbidden()[k], s) {
      if k == 0 {
        NoInsert(s, z);
      } else {
        var c := ForbiddenHooked(k);
        NeededAbsent(Forbidden()[k], c, s);
      }
    }
    NoInjection(s, z);
  }

  lemma NoInjection(s: string, z: string)
    requires Layout(s, z)
    ensures NoneFound(Injection(), s)
  {
    OnlyHookIsN(s, z);
    forall k: nat | k < 6 ensures !Found(Injection()[k], s) {
      if k == 0 { QuoteDropHooked(); NeededAbsent(QuoteDrop(), ';', s); }
      else if k == 1 { UnionSelectHooked(); NeededAbsent(UnionSelect(), 'U', s); }
      else if k == 2 { LineCommentHooked(); NeededAbsent(LineComment(), '-', s); }
      else if k == 3 { BlockCommentNeedsSlash(); NeededAbsent(BlockComment(), '/', s); }
      else if k == 4 { OrEquationHooked(); NeededAbsent(OrEquation(), '=', s); }
      else { XpCallHooked(); NeededAbsent(XpCall(), 'x', s); }
    }
  }

  lemma NoInsert(s: string, z: string)
    requires Layout(s, z)
    ensures !Found(Forbidden()[0], s)
  {
    assert Forbidden()[0] == WordRe("INSERT");
    forall i, j | 0 <= i <= j <= |s| ensures !Matches(WordRe("INSERT"), s, i, j) {
      if Matches(WordRe("INSERT"), s, i, j) {
        var i0 := Split(Edge, Cat(Lit("INSERT"), Edge), s, i, j);
        var k := Split(Lit("INSERT"), Edge, s, i, j);
        LitMatches("INSERT", s, i, k);
        NoInsertAt(s, z, i);
        assert false;
      }
    }
  }

  lemma NoInsertAt(s: string, z: string, i: nat)
    requires Layout(s, z)
    ensures !Spells(s, i, "INSERT")
  {
    OnlyHookIsN(s, z);
    if i == 16 {
      SpellsNot(s, i, "INSERT", 2);
    } else {
      SpellsNot(s, i, "INSERT", 1);
    }
  }

  lemma Starts(s: string, z: string)
    requires Layout(s, z)
    ensures StartsSelect(s)
  {
    Chars(s, z);
    assert TrimLeft(s, IsSpace) == s && TrimRight(s, IsSpace) == s && TrimLeft(s, LParen) == s;
    assert s[5] == 'T' && s[6] == ' ';
    forall x | 0 <= x < 6 ensures FoldChar(s[0 + x]) == FoldChar("SELECT"[x]) {
      assert s[x] == "SELECT 1 FROM "[x];
    }
    LitMatches("SELECT", s, 0, 6);
    Join(Lit("SELECT"), Edge, s, 0, 6, 6);
  }

  lemma FirstRef(s: string, z: string)
    requires Layout(s, z)
    ensures RefAt(s, 9) && RefOf(s, 9) == Ref(9, 14, 18)
  {
    Chars(s, z);
    assert forall x :: 0 <= x < 4 ==> s[9 + x] == "FROM"[x];
    SkipIs(s, 13, 14, Space);
    SkipIs(s, 14, 18, Word);
  }

  lemma SecondRef(s: string, z: string)
    requires Layout(s, z)
    ensures RefAt(s, 14) && RefOf(s, 14) == Ref(14, 19, |s|)
  {
    Chars(s, z);
    assert forall x :: 0 <= x < 4 ==> s[14 + x] == s[14..18][x];
    assert Spells(s, 14, s[14..18]);
    SkipIs(s, 18, 19, Space);
    SkipPast(s, 19, |s|, Word);
  }

  lemma NoOtherRef(s: string, z: string, p: nat)
    requires Layout(s, z) && p != 9 && p != 14
    ensures !RefAt(s, p)
  {
    Chars(s, z);
    assert forall x :: 0 <= x < 14 && x != 9 ==>
        FoldChar("SELECT 1 FROM "[x]) != 'f' && FoldChar("SELECT 1 FROM "[x]) != 'j';
    SpellsNot(s, p, "FROM", 0);
    SpellsNot(s, p, "JOIN", 0);
  }

  /** The statement passes although its last word, read as a reference by the pattern, is no table. */
  lemma HidingPasses(s: string, z: string, tables: Tables)
    requires Layout(s, z) && Known(s[14..18], tables)
    ensures Passes(ServiceGate(), s, tables)
    ensures RefAt(s, 14) && RefOf(s, 14).Name(s) == z
  {
    NoPattern(s, z);
    Starts(s, z);
    FirstRef(s, z);
    SecondRef(s, z);
    forall m | m in FindFrom(s, 0) ensures Known(m.Name(s), tables) {
      FoundIsRef(s, 0, m);
      if m.kw != 9 && m.kw != 14 { NoOtherRef(s, z, m.kw); }
      if m.kw == 14 {
        SkippedExactly(s, 14);
        var f := ScanReaches(s, 0, 9);
        FoundIsRef(s, 0, f);
        if f.kw != 9 && f.kw != 14 { NoOtherRef(s, z, f.kw); }
        assert false;
      }
    }
  }

  /**
   * Passing the gate means that every occurrence of the FROM/JOIN pattern names a known table
   * exactly for the schemas without a table called from or join.
   */
  lemma CoverageIffNotReserved(tables: Tables)
    ensures (forall s :: Passes(ServiceGate(), s, tables) ==> EveryRefKnown(s, tables)) <==> !Reserved(tables)
  {
    if Reserved(tables) {
      var z := FreshName(tables);
      var kw := if Known("FROM", tables) then "FROM" else "JOIN";
      var s := Hiding(kw, z);
      assert Layout(s, z) && s[14..18] == kw;
      HidingPasses(s, z, tables);
      assert !EveryRefKnown(s, tables);
    } else {
      forall s | Passes(ServiceGate(), s, tables) ensures EveryRefKnown(s, tables) {
        ScanCovers(s, tables);
      }
    }
  }
}
