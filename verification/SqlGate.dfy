/** validate_sql: the three checks a generated statement must pass before it is executed. */
module SqlGate {
  import opened Text
  import opened Regex

  // ---------------------------------------------------------------- the patterns

  /** \bW\b */
  function WordRe(w: string): Re {
    Cat(Edge, Cat(Lit(w), Edge))
  }

  /** \bEXEC(?:UTE)?\b */
  function ExecRe(): Re {
    Cat(Edge, Cat(Lit("EXEC"), Cat(Alt(Lit("UTE"), Eps), Edge)))
  }

  /** The two tables of patterns. */
  datatype Gate = Gate(forbidden: seq<Re>, injection: seq<Re>)

  function ServiceGate(): Gate {
    Gate(Forbidden(), Injection())
  }

  function Keywords(): seq<string> {
    ["INSERT", "UPDATE", "DELETE", "DROP", "TRUNCATE", "ALTER", "CREATE", "GRANT", "REVOKE"]
  }

  function Forbidden(): (f: seq<Re>) {
    seq(|Keywords()|, k requires 0 <= k < |Keywords()| => WordRe(Keywords()[k])) + [ExecRe()]
  }

  /** ';\s*DROP */
  function QuoteDrop(): Re { Cat(Lit("';"), Cat(Many(Space), Lit("DROP"))) }

  /** UNION\s+SELECT */
  function UnionSelect(): Re { Cat(Lit("UNION"), Cat(Plus(Space), Lit("SELECT"))) }

  /** --\s */
  function LineComment(): Re { Cat(Lit("--"), One(Space)) }

  // a slash, a star, anything on one line, a star, a slash
  function BlockComment(): Re { Cat(Lit("/*"), Cat(Many(Dot), Lit("*/"))) }

  /** ['\d]+=\s*['\d]+ */
  function Equation(): Re { Cat(Plus(QuoteDigit), Cat(Lit("="), Cat(Many(Space), Plus(QuoteDigit)))) }

  /** \bOR\b\s+['\d]+=\s*['\d]+ */
  function OrEquation(): Re { Cat(Edge, Cat(Lit("OR"), Cat(Edge, Cat(Plus(Space), Equation())))) }

  /** \bxp_\w+ */
  function XpCall(): Re { Cat(Edge, Cat(Lit("xp_"), Plus(Word))) }

  function Injection(): (f: seq<Re>) {
    [QuoteDrop(), UnionSelect(), LineComment(), BlockComment(), OrEquation(), XpCall()]
  }

  /** \bW\s+([a-zA-Z_]\w*) */
  function RefRe(w: string): Re {
    Cat(Edge, Cat(Lit(w), Cat(Plus(Space), Cat(One(Ident), Many(Word)))))
  }

  function TableRe(): Re {
    Alt(RefRe("FROM"), RefRe("JOIN"))
  }

  // ---------------------------------------------------------------- table references

  /** A match of TableRe: where the keyword starts and where the captured identifier lies. */
  datatype Ref = Ref(kw: nat, start: nat, stop: nat) {
    function Name(s: string): string
      requires start <= stop <= |s|
    {
      s[start..stop]
    }
  }

  /** Past the run of class k that starts at i. */
  function Skip(s: string, i: nat, k: Class): (j: nat)
    requires i <= |s|
    ensures i <= j <= |s|
    ensures forall x :: i <= x < j ==> Has(k, s[x])
    ensures j < |s| ==> !Has(k, s[j])
    decreases |s| - i
  {
    if i < |s| && Has(k, s[i]) then Skip(s, i + 1, k) else i
  }

  predicate KeywordAt(s: string, i: nat) {
    AtEdge(s, i) && (Spells(s, i, "FROM") || Spells(s, i, "JOIN"))
  }

  /** From i on: at least one blank, then an identifier. */
  predicate GapAt(s: string, i: nat) {
    i < |s| && IsSpace(s[i]) && var b := Skip(s, i, Space); b < |s| && IsIdentStart(s[b])
  }

  predicate RefAt(s: string, i: nat) {
    KeywordAt(s, i) && GapAt(s, i + 4)
  }

  function RefOf(s: string, i: nat): (m: Ref)
    requires RefAt(s, i)
    ensures m.kw == i && i + 4 < m.start < m.stop <= |s|
  {
    var b := Skip(s, i + 4, Space);
    Ref(i, b, Skip(s, b, Word))
  }

  /** re.findall: matches from the left, each search resuming where the last match stopped. */
  function FindFrom(s: string, i: nat): (ms: seq<Ref>)
    requires i <= |s|
    ensures forall m :: m in ms ==> i <= m.kw < m.start < m.stop <= |s|
    decreases |s| - i
  {
    if i == |s| then []
    else if RefAt(s, i) then var m := RefOf(s, i); [m] + FindFrom(s, m.stop)
    else FindFrom(s, i + 1)
  }

  /** What findall reports are matches, with the identifier each captured. */
  lemma {:induction false} FoundIsRef(s: string, i: nat, m: Ref)
    requires i <= |s| && m in FindFrom(s, i)
    ensures RefAt(s, m.kw) && m == RefOf(s, m.kw)
    decreases |s| - i
  {
    if RefAt(s, i) {
      if m != RefOf(s, i) {
        FoundIsRef(s, RefOf(s, i).stop, m);
      }
    } else {
      FoundIsRef(s, i + 1, m);
    }
  }

  method FindAll(s: string) returns (ms: seq<Ref>)
    ensures ms == FindFrom(s, 0)
  {
    ms := [];
    var i := 0;
    while i < |s|
      invariant i <= |s|
      invariant FindFrom(s, 0) == ms + FindFrom(s, i)
      decreases |s| - i
    {
      if RefAt(s, i) {
        var m := RefOf(s, i);
        assert ms + ([m] + FindFrom(s, m.stop)) == (ms + [m]) + FindFrom(s, m.stop);
        ms := ms + [m];
        i := m.stop;
      } else {
        i := i + 1;
      }
    }
  }

  /** The deterministic scan agrees with the pattern: same starts, and the longest of its matches. */
  lemma RefAtIsTableRe(s: string, i: nat)
    requires i <= |s|
    ensures RefAt(s, i) <==> MatchesFrom(TableRe(), s, i)
    ensures RefAt(s, i) ==> Matches(TableRe(), s, i, RefOf(s, i).stop)
    ensures RefAt(s, i) ==> forall j :: i <= j <= |s| && Matches(TableRe(), s, i, j) ==> j <= RefOf(s, i).stop
  {
    if RefAt(s, i) {
      RefMatches(if Spells(s, i, "FROM") then "FROM" else "JOIN", s, i);
      var j := RefOf(s, i).stop;
      assert Matches(TableRe(), s, i, j);
      assert MatchesFrom(TableRe(), s, i);
    }
    if MatchesFrom(TableRe(), s, i) {
      var j :| i <= j <= |s| && Matches(TableRe(), s, i, j);
      RefFromMatch(if Matches(RefRe("FROM"), s, i, j) then "FROM" else "JOIN", s, i, j);
    }
    forall j | i <= j <= |s| && Matches(TableRe(), s, i, j)
      ensures RefAt(s, i) && j <= RefOf(s, i).stop
    {
      RefFromMatch(if Matches(RefRe("FROM"), s, i, j) then "FROM" else "JOIN", s, i, j);
    }
  }

  lemma RefMatches(w: string, s: string, i: nat)
    requires |w| == 4 && RefAt(s, i) && Spells(s, i, w)
    ensures Matches(RefRe(w), s, i, RefOf(s, i).stop)
  {
    var m := RefOf(s, i);
    LitMatches(w, s, i, i + 4);
    Join(One(Space), Many(Space), s, i + 4, i + 5, m.start);
    Join(One(Ident), Many(Word), s, m.start, m.start + 1, m.stop);
    Join(Plus(Space), Cat(One(Ident), Many(Word)), s, i + 4, m.start, m.stop);
    Join(Lit(w), Cat(Plus(Space), Cat(One(Ident), Many(Word))), s, i, i + 4, m.stop);
    Join(Edge, Cat(Lit(w), Cat(Plus(Space), Cat(One(Ident), Many(Word)))), s, i, i, m.stop);
  }

  lemma RefFromMatch(w: string, s: string, i: nat, j: nat)
    requires w == "FROM" || w == "JOIN"
    requires i <= j <= |s| && Matches(RefRe(w), s, i, j)
    ensures RefAt(s, i) && j <= RefOf(s, i).stop
  {
    var tail := Cat(One(Ident), Many(Word));
    var i0 := Split(Edge, Cat(Lit(w), Cat(Plus(Space), tail)), s, i, j);
    var k := Split(Lit(w), Cat(Plus(Space), tail), s, i, j);
    LitMatches(w, s, i, k);
    var b := Split(Plus(Space), tail, s, k, j);
    GapFromMatch(s, k, b, j);
  }

  lemma GapFromMatch(s: string, k: nat, b: nat, j: nat)
    requires k <= b <= j <= |s| && Matches(Plus(Space), s, k, b) && Matches(Cat(One(Ident), Many(Word)), s, b, j)
    ensures k < b < j && IsSpace(s[k]) && Skip(s, k, Space) == b && IsIdentStart(s[b]) && j <= Skip(s, b, Word)
  {
    var k1 := Split(One(Space), Many(Space), s, k, b);
    var b1 := Split(One(Ident), Many(Word), s, b, j);
    SkipIs(s, k, b, Space);
    SkipPast(s, b, j, Word);
  }

  lemma {:induction false} SkipPast(s: string, i: nat, j: nat, k: Class)
    requires i <= j <= |s| && forall x :: i <= x < j ==> Has(k, s[x])
    ensures j <= Skip(s, i, k)
    decreases j - i
  {
    if i == j {
    } else {
      SkipPast(s, i + 1, j, k);
    }
  }

  lemma {:induction false} SkipIs(s: string, i: nat, j: nat, k: Class)
    requires i <= j < |s| && !Has(k, s[j])
    requires forall x :: i <= x < j ==> Has(k, s[x])
    ensures Skip(s, i, k) == j
    decreases j - i
  {
    if i == j {
    } else {
      SkipIs(s, i + 1, j, k);
    }
  }

  // ---------------------------------------------------------------- the verdict

  /** The keys of the schema; membership ignores case. */
  type Tables = set<string>

  ghost predicate Known(name: string, tables: Tables) {
    exists t :: t in tables && SameFold(t, name)
  }

  predicate LParen(c: char) { c == '(' }

  predicate StartsSelect(sql: string) {
    MatchesFrom(Cat(Lit("SELECT"), Edge), TrimLeft(Strip(sql), LParen), 0)
  }

  ghost predicate NoneFound(ps: seq<Re>, sql: string) {
    forall k :: 0 <= k < |ps| ==> !Found(ps[k], sql)
  }

  ghost predicate AllKnown(ms: seq<Ref>, sql: string, tables: Tables) {
    forall m :: m in ms ==> m.start <= m.stop <= |sql| && Known(m.Name(sql), tables)
  }

  ghost predicate RefsKnown(sql: string, tables: Tables) {
    AllKnown(FindFrom(sql, 0), sql, tables)
  }

  /** Every check but the first. */
  ghost predicate Clean(g: Gate, sql: string, tables: Tables) {
    NoneFound(g.forbidden, sql) && NoneFound(g.injection, sql) && RefsKnown(sql, tables)
  }

  ghost predicate Passes(g: Gate, sql: string, tables: Tables) {
    StartsSelect(sql) && Clean(g, sql, tables)
  }

  datatype Check = MustBeSelect | ForbiddenStatement(k: nat) | InjectionPattern(k: nat) | UnknownTable(name: string)

  datatype ValidationInfo = ValidationInfo(
    passed: bool, failedChecks: seq<Check>, invalidReferences: seq<string>, injectionDetected: bool)

  ghost predicate Fails(g: Gate, c: Check, sql: string, tables: Tables) {
    match c
    case MustBeSelect => !StartsSelect(sql)
    case ForbiddenStatement(k) => k < |g.forbidden| && Found(g.forbidden[k], sql)
    case InjectionPattern(k) => k < |g.injection| && Found(g.injection[k], sql)
    case UnknownTable(n) => (exists m :: m in FindFrom(sql, 0) && m.Name(sql) == n) && !Known(n, tables)
  }

  ghost predicate IsHits(hits: seq<nat>, ps: seq<Re>, sql: string) {
    (forall k: nat :: k in hits <==> k < |ps| && Found(ps[k], sql)) && NoRepeats(hits)
  }

  /** One of the two pattern loops: the patterns found, in their order. */
  method Scan(ps: seq<Re>, sql: string) returns (hits: seq<nat>)
    ensures IsHits(hits, ps, sql)
    ensures forall x, y :: 0 <= x < y < |hits| ==> hits[x] < hits[y]
  {
    hits := [];
    for n := 0 to |ps|
      invariant forall k: nat :: k in hits <==> k < n && Found(ps[k], sql)
      invariant forall x :: 0 <= x < |hits| ==> hits[x] < n
      invariant forall x, y :: 0 <= x < y < |hits| ==> hits[x] < hits[y]
    {
      var hit := Search(ps[n], sql);
      if hit {
        hits := hits + [n];
      }
    }
  }

  /** Is the referenced name, lower-cased, one of the lower-cased table names? */
  method IsKnown(name: string, tables: Tables) returns (known: bool)
    ensures known <==> Known(name, tables)
  {
    var lowered := set t | t in tables :: Fold(t);
    known := Fold(name) in lowered;
    forall t | t in tables ensures SameFold(t, name) <==> Fold(t) == Fold(name) {
      SameFoldIsFold(t, name);
    }
  }

  /** The distinct unknown names among the references; the source walks a set, so in any order. */
  method UnknownNames(sql: string, ms: seq<Ref>, tables: Tables) returns (names: seq<string>)
    requires forall m :: m in ms ==> m.start <= m.stop <= |sql|
    ensures forall n :: n in names <==> (exists m :: m in ms && m.Name(sql) == n) && !Known(n, tables)
    ensures NoRepeats(names)
  {
    var referenced := set m | m in ms :: m.Name(sql);
    var todo := referenced;
    names := [];
    while todo != {}
      invariant todo <= referenced
      invariant forall n :: n in names <==> n in referenced - todo && !Known(n, tables)
      invariant NoRepeats(names)
      decreases todo
    {
      var n :| n in todo;
      todo := todo - {n};
      var known := IsKnown(n, tables);
      if !known {
        names := names + [n];
      }
    }
  }

  method ValidateSql(g: Gate, sql: string, tables: Tables) returns (info: ValidationInfo)
    ensures info.passed <==> Passes(g, sql, tables)
    ensures forall c :: c in info.failedChecks <==> Fails(g, c, sql, tables)
    ensures NoRepeats(info.failedChecks)
    ensures forall n :: n in info.invalidReferences <==> Fails(g, UnknownTable(n), sql, tables)
    ensures info.injectionDetected <==> !NoneFound(g.injection, sql)
  {
    var first := StartsSelect(sql);
    var forbidden := Scan(g.forbidden, sql);
    var injected := Scan(g.injection, sql);
    var ms := FindAll(sql);
    var names := UnknownNames(sql, ms, tables);
    var failed := AllChecks(first, forbidden, injected, names);
    info := ValidationInfo(failed == [], failed, names, injected != []);
    ChecksAreFails(g, sql, tables, forbidden, injected, names);
    PassesIsNoFailure(g, sql, tables);
    EmptyIsNone(failed);
    EmptyIsNone(injected);
  }

  function Tagged<A>(s: seq<A>, tag: A -> Check): (r: seq<Check>)
    ensures |r| == |s| && forall i :: 0 <= i < |s| ==> r[i] == tag(s[i])
  {
    seq(|s|, i requires 0 <= i < |s| => tag(s[i]))
  }

  lemma TaggedHolds<A>(s: seq<A>, tag: A -> Check, a: A)
    requires forall x, y :: x in s && tag(x) == tag(y) ==> x == y
    ensures tag(a) in Tagged(s, tag) <==> a in s
  {
    if a in s {
      var i :| 0 <= i < |s| && s[i] == a;
      assert Tagged(s, tag)[i] == tag(a);
    }
  }

  function AllChecks(first: bool, forbidden: seq<nat>, injected: seq<nat>, names: seq<string>): seq<Check> {
    (if first then [] else [MustBeSelect])
    + Tagged(forbidden, (k: nat) => ForbiddenStatement(k))
    + Tagged(injected, (k: nat) => InjectionPattern(k))
    + Tagged(names, n => UnknownTable(n))
  }

  lemma ListedIsFailing(g: Gate, sql: string, tables: Tables, forbidden: seq<nat>, injected: seq<nat>,
      names: seq<string>, c: Check)
    requires IsHits(forbidden, g.forbidden, sql) && IsHits(injected, g.injection, sql)
    requires forall n :: n in names <==> Fails(g, UnknownTable(n), sql, tables)
    ensures c in AllChecks(StartsSelect(sql), forbidden, injected, names) <==> Fails(g, c, sql, tables)
  {
    var first := if StartsSelect(sql) then [] else [MustBeSelect];
    var f, i, u := (k: nat) => ForbiddenStatement(k), (k: nat) => InjectionPattern(k), n => UnknownTable(n);
    assert c in AllChecks(StartsSelect(sql), forbidden, injected, names)
        <==> c in first || c in Tagged(forbidden, f) || c in Tagged(injected, i) || c in Tagged(names, u);
    match c
    case MustBeSelect =>
    case ForbiddenStatement(k) => TaggedHolds(forbidden, f, k);
    case InjectionPattern(k) => TaggedHolds(injected, i, k);
    case UnknownTable(n) => TaggedHolds(names, u, n);
  }

  /** The list holds the failing checks, each once. */
  lemma ChecksAreFails(g: Gate, sql: string, tables: Tables, forbidden: seq<nat>, injected: seq<nat>,
      names: seq<string>)
    requires IsHits(forbidden, g.forbidden, sql) && IsHits(injected, g.injection, sql) && NoRepeats(names)
    requires forall n :: n in names <==> Fails(g, UnknownTable(n), sql, tables)
    ensures forall c :: c in AllChecks(StartsSelect(sql), forbidden, injected, names) <==> Fails(g, c, sql, tables)
    ensures NoRepeats(AllChecks(StartsSelect(sql), forbidden, injected, names))
  {
    forall c ensures c in AllChecks(StartsSelect(sql), forbidden, injected, names) <==> Fails(g, c, sql, tables) {
      ListedIsFailing(g, sql, tables, forbidden, injected, names, c);
    }
    var a := if StartsSelect(sql) then [] else [MustBeSelect];
    var b, d := Tagged(forbidden, (k: nat) => ForbiddenStatement(k)), Tagged(injected, (k: nat) => InjectionPattern(k));
    NoRepeatsConcat(a, b);
    NoRepeatsConcat(a + b, d);
    NoRepeatsConcat(a + b + d, Tagged(names, n => UnknownTable(n)));
  }

  lemma EmptyIsNone<T>(s: seq<T>)
    ensures s == [] <==> forall c :: c !in s
  {
    if s != [] { assert s[0] in s; }
  }

  lemma PassesIsNoFailure(g: Gate, sql: string, tables: Tables)
    ensures Passes(g, sql, tables) <==> forall c :: !Fails(g, c, sql, tables)
  {
    if forall c :: !Fails(g, c, sql, tables) {
      assert !Fails(g, MustBeSelect, sql, tables);
      forall k: nat | k < |g.forbidden| ensures !Found(g.forbidden[k], sql) {
        assert !Fails(g, ForbiddenStatement(k), sql, tables);
      }
      forall k: nat | k < |g.injection| ensures !Found(g.injection[k], sql) {
        assert !Fails(g, InjectionPattern(k), sql, tables);
      }
      forall m | m in FindFrom(sql, 0) ensures Known(m.Name(sql), tables) {
        assert !Fails(g, UnknownTable(m.Name(sql)), sql, tables);
      }
    }
  }
}
