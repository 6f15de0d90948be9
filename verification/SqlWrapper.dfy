/** The statement that is really executed: the accepted text inside SELECT * FROM (...) _q LIMIT n OFFSET m. */
module SqlWrapper {
  import opened Text
  import opened Regex
  import opened SqlGate
  import opened SqlGateLaws
  import opened Pagination

  // ---------------------------------------------------------------- the text

  function Decimal(n: nat): (s: string)
    ensures s != "" && forall x :: 0 <= x < |s| ==> IsDigit(s[x])
  {
    var digit := ['0' + (n % 10) as char];
    if n < 10 then digit else Decimal(n / 10) + digit
  }

  function Enclose(h: string, s: string, t: string): string {
    h + "(" + s + ")" + t
  }

  function Tail(size: nat, offset: nat): string {
    " _q LIMIT " + Decimal(size) + " OFFSET " + Decimal(offset)
  }

  function Paginated(sql: string, page: nat, size: nat): string
    requires page >= 1
  {
    Enclose("SELECT * FROM ", sql, Tail(size, Offset(page, size)))
  }

  /** Digits, without a leading zero unless there is nothing else. */
  predicate Numeral(s: string) {
    s != "" && (forall x :: 0 <= x < |s| ==> IsDigit(s[x])) && (s[0] == '0' ==> |s| == 1)
  }

  /** The number that digits write. */
  function Value(s: string): nat
    requires forall x :: 0 <= x < |s| ==> IsDigit(s[x])
  {
    if s == "" then 0
    else assert IsDigit(s[|s| - 1]); 10 * Value(s[..|s| - 1]) + (s[|s| - 1] as int - '0' as int)
  }

  lemma {:induction false} DecimalReads(n: nat)
    ensures Numeral(Decimal(n)) && Value(Decimal(n)) == n && (Decimal(n)[0] == '0' <==> n == 0)
  {
    var digit := ['0' + (n % 10) as char];
    if n < 10 {
      assert digit[..0] == "";
    } else {
      DecimalReads(n / 10);
      assert Decimal(n)[..|Decimal(n)| - 1] == Decimal(n / 10);
    }
  }

  /**
   * What the database is sent: the statement in its frame, a limit of one page and an offset of the pages
   * before it, and those two cut the page out of the rows.
   */
  lemma PaginatedReads<R>(sql: string, rows: seq<R>, page: nat, size: nat) returns (limit: string, offset: string)
    requires page >= 1
    ensures Numeral(limit) && Numeral(offset)
    ensures Paginated(sql, page, size) == "SELECT * FROM (" + sql + ") _q LIMIT " + limit + " OFFSET " + offset
    ensures Value(limit) == size && Value(offset) == (page - 1) * size
    ensures Limited(rows, Value(limit), Value(offset)) == SyncExecute(rows, page, size).rows
  {
    limit, offset := Decimal(size), Decimal(Offset(page, size));
    DecimalReads(size);
    DecimalReads(Offset(page, size));
    TimesIsProduct(page - 1, size);
    FrameIs(sql, limit, offset);
  }

  lemma FrameIs(sql: string, limit: string, offset: string)
    ensures Enclose("SELECT * FROM ", sql, " _q LIMIT " + limit + " OFFSET " + offset)
         == "SELECT * FROM (" + sql + ") _q LIMIT " + limit + " OFFSET " + offset
  {
    assert "SELECT * FROM " + "(" == "SELECT * FROM (";
    assert ")" + " _q LIMIT " == ") _q LIMIT ";
  }

  // ---------------------------------------------------------------- every pattern needs a character the frame lacks

  lemma {:induction false} LitNeeds(w: string, k: nat)
    requires k < |w|
    ensures Needs(Lit(w), w[k])
  {
    if k == 0 {
    } else {
      LitNeeds(w[1..], k - 1);
    }
  }

  lemma {:induction false} LitRejects(w: string, c: char)
    requires forall x :: 0 <= x < |w| ==> FoldChar(w[x]) != FoldChar(c)
    ensures Rejects(Lit(w), c)
  {
    if w == "" {
    } else {
      LitRejects(w[1..], c);
    }
  }

  predicate Paren(c: char) {
    c == '(' || c == ')'
  }

  /** The characters that folded text must not show for no pattern to reach into it. */
  predicate Hook(c: char) {
    FoldChar(c) in {'n', 'u', 'd', 'a', 'g', 'v', 'x', ';', '-', '/', '='}
  }

  predicate Bland(s: string) {
    forall x :: 0 <= x < |s| ==> !Hook(s[x]) && !Paren(s[x])
  }

  ghost predicate HookedBy(r: Re, c: char) {
    Hook(c) && Needs(r, c) && Rejects(r, '(') && Rejects(r, ')')
  }

  lemma WordHooked(w: string, x: nat)
    requires x < |w| && Hook(w[x]) && AllWord(w)
    ensures HookedBy(WordRe(w), w[x])
  {
    LitNeeds(w, x);
    LitRejects(w, '(');
    LitRejects(w, ')');
    HookedCat(Lit(w), Edge, w[x]);
    HookedCat(Edge, Cat(Lit(w), Edge), w[x]);
  }

  lemma ExecHooked()
    ensures HookedBy(ExecRe(), 'X')
  {
    LitNeeds("EXEC", 1);
    LitRejects("EXEC", '(');
    LitRejects("EXEC", ')');
    LitRejects("UTE", '(');
    LitRejects("UTE", ')');
  }

  lemma ForbiddenHooked(k: nat) returns (c: char)
    requires k < 10
    ensures HookedBy(Forbidden()[k], c) && (k > 0 ==> FoldChar(c) != 'n')
  {
    if k < 9 {
      var w := Keywords()[k];
      KeywordIsWord(k);
      var x := HookIndex(k);
      WordHooked(w, x);
      c := w[x];
    } else {
      ExecHooked();
      c := 'X';
    }
  }

  /** Where the keyword has its hook. */
  lemma HookIndex(k: nat) returns (x: nat)
    requires k < 9
    ensures x < |Keywords()[k]| && Hook(Keywords()[k][x]) && (k > 0 ==> FoldChar(Keywords()[k][x]) != 'n')
  {
    x := if k == 0 then 1 else if k == 4 || k == 8 then 2 else if k == 6 then 3 else 0;
    assert Keywords()[k][x] in ['N', 'U', 'D', 'A', 'G', 'V'];
  }

  lemma QuoteDropHooked()
    ensures HookedBy(QuoteDrop(), ';')
  {
    LitNeeds("';", 1);
    LitRejects("';", '(');
    LitRejects("';", ')');
    LitRejects("DROP", '(');
    LitRejects("DROP", ')');
  }

  lemma UnionSelectHooked()
    ensures HookedBy(UnionSelect(), 'U')
  {
    var a, b := Lit("UNION"), Lit("SELECT");
    LitNeeds("UNION", 0);
    LitRejects("UNION", '(');
    LitRejects("UNION", ')');
    LitRejects("SELECT", '(');
    LitRejects("SELECT", ')');
    HookedCat(a, Cat(Plus(Space), b), 'U');
  }

  lemma HookedCat(a: Re, b: Re, c: char)
    requires Hook(c) && (Needs(a, c) || Needs(b, c))
    requires Rejects(a, '(') && Rejects(a, ')') && Rejects(b, '(') && Rejects(b, ')')
    ensures HookedBy(Cat(a, b), c)
  {
  }

  lemma LineCommentHooked()
    ensures HookedBy(LineComment(), '-')
  {
    LitNeeds("--", 0);
    LitRejects("--", '(');
    LitRejects("--", ')');
  }

  lemma OrEquationHooked()
    ensures HookedBy(OrEquation(), '=')
  {
    LitNeeds("=", 0);
    LitRejects("=", '(');
    LitRejects("=", ')');
    LitRejects("OR", '(');
    LitRejects("OR", ')');
  }

  lemma XpCallHooked()
    ensures HookedBy(XpCall(), 'x')
  {
    LitNeeds("xp_", 0);
    LitRejects("xp_", '(');
    LitRejects("xp_", ')');
  }

  lemma BlockCommentNeedsSlash()
    ensures Needs(BlockComment(), '/')
  {
    LitNeeds("/*", 0);
  }

  // ---------------------------------------------------------------- nothing is matched across the seams

  lemma Window(h: string, s: string, t: string)
    ensures var w, o := Enclose(h, s, t), |h| + 1;
      && |w| == o + |s| + 1 + |t| && w[o - 1] == '(' && w[o + |s|] == ')'
      && (forall x {:trigger s[x]} :: 0 <= x < |s| ==> w[x + o] == s[x])
      && (forall x {:trigger AtEdge(s, x)} :: 0 <= x <= |s| ==> AtEdge(s, x) == AtEdge(w, x + o))
  {
    var w, o := Enclose(h, s, t), |h| + 1;
    assert forall x {:trigger WordAt(s, x)} :: -1 <= x <= |s| ==> WordAt(s, x) == WordAt(w, x + o);
  }

  lemma WindowMirrors(h: string, s: string, t: string, i: nat, j: nat)
    requires i <= j <= |s|
    ensures Mirrors(s, Enclose(h, s, t), |h| + 1, i, j)
  {
    Window(h, s, t);
  }

  lemma SameInWindow(r: Re, h: string, s: string, t: string, i: nat, j: nat)
    requires i <= j <= |s|
    ensures var o := |h| + 1;
      j + o <= |Enclose(h, s, t)| && (Matches(r, s, i, j) <==> Matches(r, Enclose(h, s, t), i + o, j + o))
  {
    WindowMirrors(h, s, t, i, j);
    Transport(r, s, Enclose(h, s, t), |h| + 1, i, j);
  }

  lemma HookInside(c: char, h: string, s: string, t: string, x: nat)
    requires Bland(h) && Bland(t) && Hook(c)
    requires x < |Enclose(h, s, t)| && FoldChar(Enclose(h, s, t)[x]) == FoldChar(c)
    ensures |h| + 1 <= x < |h| + 1 + |s|
  {
    var w, o := Enclose(h, s, t), |h| + 1;
    Window(h, s, t);
    forall y | 0 <= y < |h| ensures !Hook(w[y]) { assert w[y] == h[y]; }
    forall y | o + |s| < y < |w| ensures !Hook(w[y]) { assert w[y] == t[y - o - |s| - 1]; }
    assert Hook(w[x]);
  }

  /** A pattern that stops at parentheses and needs a character foreign to the frame sees only the enclosed text. */
  lemma SeamFree(r: Re, c: char, h: string, s: string, t: string)
    requires HookedBy(r, c) && Bland(h) && Bland(t)
    ensures Found(r, Enclose(h, s, t)) == Found(r, s)
  {
    var w, o := Enclose(h, s, t), |h| + 1;
    Window(h, s, t);
    if i, j :| 0 <= i <= j <= |w| && Matches(r, w, i, j) {
      var x := NeededPresent(r, c, w, i, j);
      HookInside(c, h, s, t, x);
      RejectedAbsent(r, '(', w, i, j);
      RejectedAbsent(r, ')', w, i, j);
      assert w[o - 1] == '(' && w[o + |s|] == ')';
      assert o <= i && j <= o + |s|;
      SameInWindow(r, h, s, t, i - o, j - o);
    }
    if i, j :| 0 <= i <= j <= |s| && Matches(r, s, i, j) {
      SameInWindow(r, h, s, t, i, j);
    }
  }

  lemma BlockCommentEnds(s: string, i: nat, j: nat)
    requires i <= j <= |s| && Matches(BlockComment(), s, i, j)
    ensures i + 4 <= j && s[i] == '/' && s[j - 1] == '/'
  {
    var k := Split(Lit("/*"), Cat(Many(Dot), Lit("*/")), s, i, j);
    var l := Split(Many(Dot), Lit("*/"), s, k, j);
    LitMatches("/*", s, i, k);
    LitMatches("*/", s, l, j);
    assert FoldChar(s[i + 0]) == FoldChar("/*"[0]) && FoldChar(s[l + 1]) == FoldChar("*/"[1]);
  }

  lemma BlockCommentSeamFree(h: string, s: string, t: string)
    requires Bland(h) && Bland(t)
    ensures Found(BlockComment(), Enclose(h, s, t)) == Found(BlockComment(), s)
  {
    var w, o := Enclose(h, s, t), |h| + 1;
    if i, j :| 0 <= i <= j <= |w| && Matches(BlockComment(), w, i, j) {
      BlockCommentEnds(w, i, j);
      HookInside('/', h, s, t, i);
      HookInside('/', h, s, t, j - 1);
      SameInWindow(BlockComment(), h, s, t, i - o, j - o);
    }
    if i, j :| 0 <= i <= j <= |s| && Matches(BlockComment(), s, i, j) {
      SameInWindow(BlockComment(), h, s, t, i, j);
    }
  }

  /** A pattern that no frame without hooks and parentheses can complete, hide or extend. */
  ghost predicate Foreign(r: Re) {
    r == BlockComment() || exists c :: HookedBy(r, c)
  }

  ghost predicate AllForeign(patterns: seq<Re>) {
    forall k :: 0 <= k < |patterns| ==> Foreign(patterns[k])
  }

  /** Every one of the patterns is found in both texts or in neither. */
  ghost predicate SameFound(patterns: seq<Re>, w: string, s: string) {
    forall k :: 0 <= k < |patterns| ==> Found(patterns[k], w) == Found(patterns[k], s)
  }

  lemma ForeignSeamFree(patterns: seq<Re>, h: string, s: string, t: string)
    requires AllForeign(patterns) && Bland(h) && Bland(t)
    ensures SameFound(patterns, Enclose(h, s, t), s)
  {
    forall k | 0 <= k < |patterns| ensures Found(patterns[k], Enclose(h, s, t)) == Found(patterns[k], s) {
      assert Foreign(patterns[k]);
      if patterns[k] == BlockComment() {
        BlockCommentSeamFree(h, s, t);
      } else {
        var c :| HookedBy(patterns[k], c);
        SeamFree(patterns[k], c, h, s, t);
      }
    }
  }

  lemma InjectionIsForeign(k: nat)
    requires k < 6
    ensures Foreign(Injection()[k])
  {
    if k == 0 { QuoteDropHooked(); }
    else if k == 1 { UnionSelectHooked(); }
    else if k == 2 { LineCommentHooked(); }
    else if k == 4 { OrEquationHooked(); }
    else if k == 5 { XpCallHooked(); }
  }

  /** All sixteen patterns of the service are of that kind. */
  lemma ServiceGateIsForeign()
    ensures AllForeign(ServiceGate().forbidden) && AllForeign(ServiceGate().injection)
  {
    forall k | 0 <= k < 10 ensures Foreign(Forbidden()[k]) {
      var c := ForbiddenHooked(k);
    }
    forall k | 0 <= k < 6 ensures Foreign(Injection()[k]) {
      InjectionIsForeign(k);
    }
  }

  // ---------------------------------------------------------------- table references across the seams

  /** Text s shows in w from o on, closed by a parenthesis. */
  ghost predicate Shows(w: string, o: nat, s: string) {
    && o + |s| < |w| && w[o + |s|] == ')'
    && (forall x {:trigger s[x]} :: 0 <= x < |s| ==> w[x + o] == s[x])
    && (forall x {:trigger AtEdge(s, x)} :: 0 <= x <= |s| ==> AtEdge(s, x) == AtEdge(w, x + o))
  }

  lemma {:induction false} SkipInWindow(w: string, o: nat, s: string, i: nat, k: Class)
    requires Shows(w, o, s) && i <= |s| && (k == Space || k == Word)
    ensures Skip(w, i + o, k) == Skip(s, i, k) + o
    decreases |s| - i
  {
    if i == |s| {
    } else if Has(k, s[i]) {
      SkipInWindow(w, o, s, i + 1, k);
    }
  }

  lemma SpellsInWindow(w: string, o: nat, s: string, i: nat, v: string)
    requires Shows(w, o, s) && i <= |s| && |v| == 4 && forall x :: 0 <= x < 4 ==> IsWord(v[x])
    ensures Spells(s, i, v) == Spells(w, i + o, v)
  {
    if Spells(w, i + o, v) {
      assert |s| - i < 4 ==> FoldChar(w[(i + o) + (|s| - i)]) == FoldChar(v[|s| - i]);
      forall x | 0 <= x < 4 ensures FoldChar(s[i + x]) == FoldChar(v[x]) {
        assert s[i + x] == w[i + x + o] && FoldChar(w[(i + o) + x]) == FoldChar(v[x]);
      }
    }
    if Spells(s, i, v) {
      forall x | 0 <= x < 4 ensures FoldChar(w[(i + o) + x]) == FoldChar(v[x]) {
        assert s[i + x] == w[i + x + o];
      }
    }
  }

  lemma KeywordInWindow(w: string, o: nat, s: string, i: nat)
    requires Shows(w, o, s) && i <= |s|
    ensures KeywordAt(w, i + o) == KeywordAt(s, i)
  {
    SpellsInWindow(w, o, s, i, "FROM");
    SpellsInWindow(w, o, s, i, "JOIN");
    assert AtEdge(s, i) == AtEdge(w, i + o);
  }

  lemma GapInWindow(w: string, o: nat, s: string, i: nat)
    requires Shows(w, o, s) && i <= |s|
    ensures GapAt(w, i + o) == GapAt(s, i)
    ensures var b := Skip(s, i, Space); Skip(w, i + o, Space) == b + o && Skip(w, b + o, Word) == Skip(s, b, Word) + o
  {
    var b := Skip(s, i, Space);
    SkipInWindow(w, o, s, i, Space);
    SkipInWindow(w, o, s, b, Word);
    assert i < |s| ==> s[i] == w[i + o];
    assert b < |s| ==> s[b] == w[b + o];
  }

  lemma KeywordFits(s: string, i: nat)
    requires KeywordAt(s, i)
    ensures i + 4 <= |s|
  {
  }

  lemma RefInWindow(w: string, o: nat, s: string, i: nat)
    requires Shows(w, o, s) && i <= |s|
    ensures RefAt(w, i + o) == RefAt(s, i)
    ensures RefAt(s, i) ==> RefOf(w, i + o) == Moved(RefOf(s, i), o)
  {
    KeywordInWindow(w, o, s, i);
    if KeywordAt(s, i) {
      KeywordFits(s, i);
      GapInWindow(w, o, s, i + 4);
    }
  }

  function Moved(m: Ref, o: nat): Ref {
    Ref(m.kw + o, m.start + o, m.stop + o)
  }

  /** Frame text on both sides of s in which the pattern does not occur. */
  ghost predicate Quiet(w: string, o: nat, s: string) {
    Shows(w, o, s) && forall p: nat :: p <= |w| && !(o <= p < o + |s|) ==> !RefAt(w, p)
  }

  lemma CapturesInWindow(w: string, o: nat, s: string, q: nat, p: nat)
    requires Shows(w, o, s) && q <= |s|
    ensures Captures(w, q + o, p + o) == Captures(s, q, p)
  {
    RefInWindow(w, o, s, q);
  }

  ghost predicate FoundAlike(w: string, o: nat, s: string, p: nat) {
    forall q: nat {:trigger FoundAt(s, q)} :: q < p ==> FoundAt(s, q) == FoundAt(w, q + o)
  }

  lemma CapturedAlong(w: string, o: nat, s: string, q: nat, p: nat)
    requires Shows(w, o, s) && q < p < |s| && FoundAt(w, q + o) && Captures(s, q, p)
    ensures Captured(w, p + o)
  {
    CapturesInWindow(w, o, s, q, p);
  }

  lemma CapturedOutside(w: string, o: nat, s: string, p: nat)
    requires Quiet(w, o, s) && p < |s| && FoundAlike(w, o, s, p) && Captured(s, p)
    ensures Captured(w, p + o)
  {
    var q: nat :| q < p && FoundAt(s, q) && Captures(s, q, p);
    CapturedAlong(w, o, s, q, p);
  }

  lemma CapturedBack(w: string, o: nat, s: string, q: nat, p: nat)
    requires Shows(w, o, s) && q < p < |s| && FoundAt(s, q) && Captures(w, q + o, p + o)
    ensures Captured(s, p)
  {
    CapturesInWindow(w, o, s, q, p);
  }

  lemma CapturedInside(w: string, o: nat, s: string, p: nat)
    requires Quiet(w, o, s) && p < |s| && FoundAlike(w, o, s, p) && Captured(w, p + o)
    ensures Captured(s, p)
  {
    var r: nat :| r < p + o && FoundAt(w, r) && Captures(w, r, p + o);
    assert o <= r;
    var q := r - o;
    assert FoundAt(s, q) == FoundAt(w, q + o);
    CapturedBack(w, o, s, q, p);
  }

  lemma CapturedInWindow(w: string, o: nat, s: string, p: nat)
    requires Quiet(w, o, s) && p < |s| && FoundAlike(w, o, s, p)
    ensures Captured(s, p) == Captured(w, p + o)
  {
    if Captured(s, p) {
      CapturedOutside(w, o, s, p);
    }
    if Captured(w, p + o) {
      CapturedInside(w, o, s, p);
    }
  }

  lemma {:induction false} FoundInWindow(w: string, o: nat, s: string, p: nat)
    requires Quiet(w, o, s) && p < |s|
    ensures FoundAt(s, p) == FoundAt(w, p + o)
    decreases p
  {
    forall q: nat | q < p ensures FoundAt(s, q) == FoundAt(w, q + o) {
      FoundInWindow(w, o, s, q);
    }
    CapturedInWindow(w, o, s, p);
    FoundRule(s, p);
    FoundRule(w, p + o);
    RefInWindow(w, o, s, p);
  }

  lemma SameName(w: string, o: nat, s: string, m: Ref)
    requires Shows(w, o, s) && m.start <= m.stop <= |s|
    ensures Moved(m, o).Name(w) == m.Name(s)
  {
    forall x | m.start <= x < m.stop ensures w[x + o] == s[x] {
      assert s[x] == s[x];
    }
    assert forall y :: 0 <= y < m.stop - m.start ==>
        w[m.start + o..m.stop + o][y] == w[(m.start + y) + o] && m.Name(s)[y] == s[m.start + y];
  }

  ghost predicate KnownAt(s: string, p: nat, tables: Tables) {
    RefAt(s, p) && Known(RefOf(s, p).Name(s), tables)
  }

  /** The verdict on the references, position by position. */
  lemma KnownRule(s: string, tables: Tables)
    ensures RefsKnown(s, tables) <==> forall p: nat :: p <= |s| && FoundAt(s, p) ==> KnownAt(s, p, tables)
  {
    forall m | m in FindFrom(s, 0) ensures RefAt(s, m.kw) && m == RefOf(s, m.kw) {
      FoundIsRef(s, 0, m);
    }
    forall m | m in FindFrom(s, 0) ensures FoundAt(s, m.kw) {
    }
  }

  lemma KnownInWindow(w: string, o: nat, s: string, p: nat, tables: Tables)
    requires Shows(w, o, s) && p <= |s|
    ensures KnownAt(w, p + o, tables) == KnownAt(s, p, tables)
  {
    RefInWindow(w, o, s, p);
    if RefAt(s, p) {
      SameName(w, o, s, RefOf(s, p));
    }
  }

  lemma RefsInWindow(w: string, o: nat, s: string, tables: Tables)
    requires Quiet(w, o, s)
    ensures RefsKnown(w, tables) == RefsKnown(s, tables)
  {
    KnownRule(s, tables);
    KnownRule(w, tables);
    forall p: nat | p < |s|
      ensures FoundAt(s, p) == FoundAt(w, p + o) && KnownAt(w, p + o, tables) == KnownAt(s, p, tables)
    {
      FoundInWindow(w, o, s, p);
      KnownInWindow(w, o, s, p, tables);
    }
    forall p: nat | p <= |w| && FoundAt(w, p) ensures o <= p < o + |s| {
      FoundRule(w, p);
    }
    if RefsKnown(s, tables) {
      forall p: nat | p <= |w| && FoundAt(w, p) ensures KnownAt(w, p, tables) {
        assert FoundAt(s, p - o) && KnownAt(s, p - o, tables);
      }
    }
    if RefsKnown(w, tables) {
      forall p: nat | p <= |s| && FoundAt(s, p) ensures KnownAt(s, p, tables) {
        FoundRule(s, p);
        assert KnownAt(w, p + o, tables);
      }
    }
  }

  predicate NoRJ(t: string) {
    forall x :: 0 <= x < |t| ==> FoldChar(t[x]) != 'r' && FoldChar(t[x]) != 'j'
  }

  lemma TailHasNoRef(h: string, s: string, t: string, p: nat)
    requires NoRJ(t) && |h| + 1 + |s| <= p < |Enclose(h, s, t)|
    ensures !RefAt(Enclose(h, s, t), p)
  {
    var w, o := Enclose(h, s, t), |h| + 1 + |s| + 1;
    Window(h, s, t);
    assert forall x :: o <= x < |w| ==> w[x] == t[x - o];
    forall y | o - 1 <= y < |w| ensures FoldChar(w[y]) != 'r' && FoldChar(w[y]) != 'j' {
      assert y >= o ==> w[y] == t[y - o];
    }
    NoKeyword(w, p);
  }

  lemma NoKeyword(w: string, p: nat)
    requires forall y :: p <= y < |w| ==> FoldChar(w[y]) != 'r' && FoldChar(w[y]) != 'j'
    ensures !KeywordAt(w, p)
  {
    SpellsNot(w, p, "FROM", 1);
    SpellsNot(w, p, "JOIN", 0);
  }

  lemma SpellsNot(w: string, p: nat, v: string, x: nat)
    requires x < |v| && (p + x < |w| ==> FoldChar(w[p + x]) != FoldChar(v[x]))
    ensures !Spells(w, p, v)
  {
  }

  lemma HeadHasNoRef(s: string, t: string, p: nat)
    requires p < 15
    ensures !RefAt(Enclose("SELECT * FROM ", s, t), p)
  {
    var h := "SELECT * FROM ";
    var w := Enclose(h, s, t);
    Window(h, s, t);
    assert forall x :: 0 <= x < 14 ==> w[x] == h[x];
    assert Spells(w, p, "FROM") ==> FoldChar(w[p + 0]) == FoldChar("FROM"[0]) == 'f';
    assert Spells(w, p, "JOIN") ==> FoldChar(w[p + 0]) == FoldChar("JOIN"[0]) == 'j';
    assert KeywordAt(w, p) ==> p == 9;
    SkipIs(w, 13, 14, Space);
  }

  lemma RefsSeamFree(s: string, t: string, tables: Tables)
    requires NoRJ(t)
    ensures RefsKnown(Enclose("SELECT * FROM ", s, t), tables) == RefsKnown(s, tables)
  {
    var h := "SELECT * FROM ";
    var w := Enclose(h, s, t);
    Window(h, s, t);
    forall p: nat | p <= |w| && !(15 <= p < 15 + |s|) ensures !RefAt(w, p) {
      if p < 15 {
        HeadHasNoRef(s, t, p);
      } else if p < |w| {
        TailHasNoRef(h, s, t, p);
      }
    }
    RefsInWindow(w, 15, s, tables);
  }

  // ---------------------------------------------------------------- the theorem

  predicate Plain(c: char) {
    || c == ' ' || c == '*' || c == '_' || IsDigit(c)
    || FoldChar(c) in {'s', 'e', 'l', 'c', 't', 'f', 'r', 'o', 'm', 'q', 'i'}
  }

  lemma TailIsPlain(size: nat, offset: nat)
    ensures Bland(Tail(size, offset)) && NoRJ(Tail(size, offset))
  {
    var t := Tail(size, offset);
    var a, b, c, d := " _q LIMIT ", Decimal(size), " OFFSET ", Decimal(offset);
    assert forall x :: 0 <= x < |a| ==> Plain(a[x]) && FoldChar(a[x]) != 'r';
    assert forall x :: 0 <= x < |c| ==> Plain(c[x]) && FoldChar(c[x]) != 'r';
    forall x | 0 <= x < |t| ensures Plain(t[x]) && FoldChar(t[x]) != 'r' {
      assert t[x] == if x < |a| then a[x]
                     else if x < |a + b| then b[x - |a|]
                     else if x < |a + b + c| then c[x - |a + b|]
                     else d[x - |a + b + c|];
    }
  }

  lemma TrimRightKeeps(s: string, p: char -> bool, k: nat)
    requires k < |s| && !p(s[k])
    ensures k < |TrimRight(s, p)| && TrimRight(s, p) <= s
  {
    if p(s[|s| - 1]) {
      TrimRightKeeps(s[..|s| - 1], p, k);
    }
  }

  lemma WrapperStartsSelect(s: string, t: string)
    ensures StartsSelect(Enclose("SELECT * FROM ", s, t))
  {
    var w := Enclose("SELECT * FROM ", s, t);
    assert w[..7] == "SELECT " && w[7] == '*';
    TrimRightKeeps(w, IsSpace, 7);
    var v := Strip(w);
    assert v[..7] == w[..7];
    forall x | 0 <= x < 6 ensures FoldChar(v[0 + x]) == FoldChar("SELECT"[x]) {
      assert v[x] == w[..7][x];
    }
    LitMatches("SELECT", v, 0, 6);
    assert v[6] == w[..7][6] && v[5] == w[..7][5];
    Join(Lit("SELECT"), Edge, v, 0, 6, 6);
  }

  lemma SameFindings(g: Gate, w: string, s: string, tables: Tables)
    requires StartsSelect(w) && RefsKnown(w, tables) == RefsKnown(s, tables)
    requires SameFound(g.forbidden, w, s) && SameFound(g.injection, w, s)
    ensures Passes(g, w, tables) <==> Clean(g, s, tables)
  {
  }

  lemma HeadIsBland()
    ensures Bland("SELECT * FROM ")
  {
    var h := "SELECT * FROM ";
    assert forall x :: 0 <= x < |h| ==> Plain(h[x]);
  }

  lemma WrapperFindings(g: Gate, sql: string, size: nat, offset: nat, tables: Tables)
    requires AllForeign(g.forbidden) && AllForeign(g.injection)
    ensures var w := Enclose("SELECT * FROM ", sql, Tail(size, offset));
      && SameFound(g.forbidden, w, sql) && SameFound(g.injection, w, sql)
      && RefsKnown(w, tables) == RefsKnown(sql, tables) && StartsSelect(w)
  {
    var t := Tail(size, offset);
    HeadIsBland();
    TailIsPlain(size, offset);
    ForeignSeamFree(g.forbidden, "SELECT * FROM ", sql, t);
    ForeignSeamFree(g.injection, "SELECT * FROM ", sql, t);
    RefsSeamFree(sql, t, tables);
    WrapperStartsSelect(sql, t);
  }

  /**
   * The executed text passes exactly when the generated one passes everything but the SELECT check:
   * pattern by pattern and reference by reference, nothing appears and nothing is hidden at the seams.
   */
  lemma WrapperKeepsVerdict(g: Gate, sql: string, page: nat, size: nat, tables: Tables)
    requires page >= 1 && AllForeign(g.forbidden) && AllForeign(g.injection)
    ensures Passes(g, Paginated(sql, page, size), tables) <==> Clean(g, sql, tables)
    ensures SameFound(g.forbidden, Paginated(sql, page, size), sql)
    ensures SameFound(g.injection, Paginated(sql, page, size), sql)
    ensures RefsKnown(Paginated(sql, page, size), tables) == RefsKnown(sql, tables)
  {
    WrapperFindings(g, sql, size, Offset(page, size), tables);
    SameFindings(g, Paginated(sql, page, size), sql, tables);
  }

  lemma AcceptedStaysAccepted(sql: string, page: nat, size: nat, tables: Tables)
    requires page >= 1 && Passes(ServiceGate(), sql, tables)
    ensures Passes(ServiceGate(), Paginated(sql, page, size), tables)
  {
    ServiceGateIsForeign();
    WrapperKeepsVerdict(ServiceGate(), sql, page, size, tables);
  }
}
