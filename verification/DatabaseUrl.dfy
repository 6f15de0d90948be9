/**
 * _build_database_url: a chain of text replacements that is meant to edit the query
 * parameters of a connection URL. The parameter list is the reference here; the chain
 * is shown to compute it.
 */
module DatabaseUrl {
  import opened QueryParameters
  import opened StrReplace
  import opened Text

  // ---------------------------------------------------------------- the chain

  const ASYNC_SCHEME := "postgresql+asyncpg://"
  const SCHEMES := ["postgresql://", "postgres://"]
  const SSLMODE := "sslmode="
  const SSL := "ssl="

  const REQUIRE := "channel_binding=require"
  const DISABLE := "channel_binding=disable"

  /** The scheme a URL or its base is given. */
  function Rescheme(s: string): (t: string) {
    if StartsWith(s, SCHEMES[0]) then ASYNC_SCHEME + s[|SCHEMES[0]|..]
    else if StartsWith(s, SCHEMES[1]) then ASYNC_SCHEME + s[|SCHEMES[1]|..]
    else s
  }

  function RenameMode(url: string, mode: string): (t: string) {
    Replace(url, SSLMODE + mode, SSL + mode)
  }

  function RenameModes(url: string): (t: string) {
    RenameMode(RenameMode(RenameMode(RenameMode(url, "require"), "disable"), "prefer"), "allow")
  }

  function DropBinding(url: string): (t: string) {
    var u1 := Replace(url, "&" + REQUIRE, "");
    var u2 := Replace(u1, "&" + DISABLE, "");
    var u3 := Replace(u2, "?" + REQUIRE + "&", "?");
    Replace(u3, "?" + REQUIRE, "")
  }

  /** What the chain of replacements makes of a URL. */
  function Rewrite(raw: string): (url: string) {
    DropBinding(RenameModes(Rescheme(raw)))
  }

  lemma ModeWords(url: string)
    ensures RenameMode(url, "require") == Replace(url, "sslmode=require", "ssl=require")
    ensures RenameMode(url, "disable") == Replace(url, "sslmode=disable", "ssl=disable")
    ensures RenameMode(url, "prefer") == Replace(url, "sslmode=prefer", "ssl=prefer")
    ensures RenameMode(url, "allow") == Replace(url, "sslmode=allow", "ssl=allow")
  {
    assert SSLMODE + "require" == "sslmode=require" && SSL + "require" == "ssl=require";
    assert SSLMODE + "disable" == "sslmode=disable" && SSL + "disable" == "ssl=disable";
    assert SSLMODE + "prefer" == "sslmode=prefer" && SSL + "prefer" == "ssl=prefer";
    assert SSLMODE + "allow" == "sslmode=allow" && SSL + "allow" == "ssl=allow";
  }

  lemma BindingWords()
    ensures "&" + REQUIRE == "&channel_binding=require" && "&" + DISABLE == "&channel_binding=disable"
    ensures "?" + REQUIRE == "?channel_binding=require" && "?" + REQUIRE + "&" == "?channel_binding=require&"
  {
  }

  method ReplaceScheme(raw: string) returns (url: string)
    ensures url == Rescheme(raw)
  {
    url := raw;
    for i := 0 to |SCHEMES|
      invariant url == raw
      invariant forall k :: 0 <= k < i ==> !StartsWith(raw, SCHEMES[k])
    {
      if StartsWith(url, SCHEMES[i]) {
        ReplaceOnceAtStart(url, SCHEMES[i], ASYNC_SCHEME);
        url := ReplaceOnceFrom(url, SCHEMES[i], ASYNC_SCHEME, 0);
        assert i == 0 || (i == 1 && !StartsWith(raw, SCHEMES[0]));
        return;
      }
    }
    assert !StartsWith(raw, SCHEMES[0]) && !StartsWith(raw, SCHEMES[1]);
  }

  method BuildDatabaseUrl(raw: string) returns (url: string)
    ensures url == Rewrite(raw)
  {
    url := ReplaceScheme(raw);
    ModeWords(url);
    url := Replace(url, "sslmode=require", "ssl=require");
    ModeWords(url);
    url := Replace(url, "sslmode=disable", "ssl=disable");
    ModeWords(url);
    url := Replace(url, "sslmode=prefer", "ssl=prefer");
    ModeWords(url);
    url := Replace(url, "sslmode=allow", "ssl=allow");
    BindingWords();
    url := Replace(url, "&channel_binding=require", "");
    url := Replace(url, "&channel_binding=disable", "");
    url := Replace(url, "?channel_binding=require&", "?");
    url := Replace(url, "?channel_binding=require", "");
  }

  // ---------------------------------------------------------------- the parameter map it should be

  /** The sslmode values the rewriter knows, or a value that starts with one. */
  predicate ListedMode(value: string) {
    || StartsWith(value, "require") || StartsWith(value, "disable")
    || StartsWith(value, "prefer") || StartsWith(value, "allow")
  }

  /** sslmode=v becomes ssl=v. */
  function Renamed(p: string): (q: string) {
    if StartsWith(p, SSLMODE) && ListedMode(p[|SSLMODE|..]) then SSL + p[|SSLMODE|..] else p
  }

  function RenameAll(ps: seq<string>): (qs: seq<string>)
    ensures |qs| == |ps| && forall k :: 0 <= k < |ps| ==> qs[k] == Renamed(ps[k])
  {
    seq(|ps|, k requires 0 <= k < |ps| => Renamed(ps[k]))
  }

  /** The parameters asyncpg is to see: modes renamed, the two listed channel_binding parameters gone. */
  function Kept(ps: seq<string>): (qs: seq<string>) {
    Without(Without(RenameAll(ps), REQUIRE), DISABLE)
  }

  predicate Binding(p: string) {
    StartsWith(p, "channel_binding=")
  }

  lemma BindingUnrenamed(p: string)
    ensures Binding(Renamed(p)) <==> Binding(p)
    ensures Binding(p) ==> Renamed(p) == p
  {
    var first := "channel_binding="[0];
    if StartsWith(p, SSLMODE) {
      assert p[0] == SSLMODE[0] != first;
      assert (SSL + p[|SSLMODE|..])[0] == SSL[0] != first;
    }
  }

  /**
   * asyncpg is left with a channel_binding parameter exactly when the URL gave one another value than the two
   * listed.
   */
  lemma BindingLeft(ps: seq<string>)
    ensures (exists q :: q in Kept(ps) && Binding(q)) <==>
        exists p :: p in ps && Binding(p) && p != REQUIRE && p != DISABLE
  {
    var rs := RenameAll(ps);
    if q :| q in Kept(ps) && Binding(q) {
      WithoutKeeps(Without(rs, REQUIRE), DISABLE, q);
      WithoutKeeps(rs, REQUIRE, q);
      var k :| 0 <= k < |rs| && rs[k] == q;
      BindingUnrenamed(ps[k]);
      assert ps[k] in ps;
    }
    if p :| p in ps && Binding(p) && p != REQUIRE && p != DISABLE {
      var k :| 0 <= k < |ps| && ps[k] == p;
      BindingUnrenamed(p);
      assert rs[k] == p;
      WithoutKeeps(rs, REQUIRE, p);
      WithoutKeeps(Without(rs, REQUIRE), DISABLE, p);
    }
  }

  /**
   * None of the texts that are replaced stands within p, unless p starts with it, and the binding ones are all
   * of p.
   */
  ghost predicate WholeParameter(p: string) {
    && '&' !in p && Free(p, "?" + REQUIRE) && Whole(p, REQUIRE) && Whole(p, DISABLE)
    && ModeInFront(p, "require") && ModeInFront(p, "disable") && ModeInFront(p, "prefer") && ModeInFront(p, "allow")
  }

  /** sslmode=m stands in p at the front or not at all. */
  ghost predicate ModeInFront(p: string, m: string) {
    OnlyAtStart(p, SSLMODE + m)
  }

  ghost predicate NoMode(s: string, m: string) {
    Free(s, SSLMODE + m)
  }

  ghost predicate PlainBase(base: string) {
    && '?' !in base && Free(base, "&" + REQUIRE) && Free(base, "&" + DISABLE)
    && NoMode(base, "require") && NoMode(base, "disable") && NoMode(base, "prefer") && NoMode(base, "allow")
  }

  ghost predicate WholeParameters(ps: seq<string>) {
    forall p :: p in ps ==> WholeParameter(p)
  }

  // ---------------------------------------------------------------- one parameter

  /** x starting with y past its first |x| letters, read either way. */
  lemma StartsParts(p: string, x: string, y: string)
    ensures StartsWith(p, x + y) <==> StartsWith(p, x) && StartsWith(p[|x|..], y)
  {
    OccursParts(p, x, y, 0);
    if StartsWith(p, x) {
      OccursRight(p[..|x|], p[|x|..], y, 0);
      assert p[..|x|] + p[|x|..] == p;
    }
  }

  function RelabelMode(p: string, mode: string): (q: string) {
    Relabel(p, SSLMODE + mode, SSL + mode)
  }

  lemma RelabelModeIs(p: string, mode: string)
    ensures RelabelMode(p, mode) ==
              if StartsWith(p, SSLMODE) && StartsWith(p[|SSLMODE|..], mode) then SSL + p[|SSLMODE|..] else p
  {
    StartsParts(p, SSLMODE, mode);
    if StartsWith(p, SSLMODE + mode) {
      var x := p[|SSLMODE|..];
      assert x == mode + x[|mode|..];
      assert p[|SSLMODE + mode|..] == x[|mode|..];
      assert SSL + mode + x[|mode|..] == SSL + (mode + x[|mode|..]);
    }
  }

  /** The replacement text completes none of the texts that are replaced. */
  lemma RenamedIsFree(x: string, w: string)
    requires w != "" && (SSLMODE <= w || w[0] == '?')
    ensures forall i :: 0 <= i < |SSL| ==> !OccursAt(SSL + x, w, i)
  {
    if SSLMODE <= w {
      assert w[0] == SSLMODE[0] && w[1] == SSLMODE[1] && w[3] == SSLMODE[3];
      Misfit(SSL + x, w, 0, 3);
      Misfit(SSL + x, w, 1, 1);
      Misfit(SSL + x, w, 2, 0);
      Misfit(SSL + x, w, 3, 0);
    } else {
      forall i | 0 <= i < |SSL| ensures !OccursAt(SSL + x, w, i) {
        Misfit(SSL + x, w, i, 0);
      }
    }
  }

  /** The four words in turn rename what ListedMode says, and nothing twice. */
  lemma FourModes(p: string)
    ensures RelabelMode(RelabelMode(RelabelMode(RelabelMode(p, "require"), "disable"), "prefer"), "allow") == Renamed(p)
  {
    var p1 := RelabelMode(p, "require");
    var p2 := RelabelMode(p1, "disable");
    var p3 := RelabelMode(p2, "prefer");
    RelabelModeIs(p, "require");
    RelabelModeIs(p1, "disable");
    RelabelModeIs(p2, "prefer");
    RelabelModeIs(p3, "allow");
    if StartsWith(p, SSLMODE) {
      RenamedIsFree(p[|SSLMODE|..], SSLMODE);
    }
  }

  lemma MovedIsFree(p: string, w: string)
    requires StartsWith(p, SSLMODE) && OnlyAtStart(p, w)
    requires w != "" && (SSLMODE <= w || w[0] == '?')
    ensures Free(SSL + p[|SSLMODE|..], w)
  {
    var x := p[|SSLMODE|..];
    RenamedIsFree(x, w);
    forall i | 0 <= i < |SSL + x| ensures !OccursAt(SSL + x, w, i) {
      if i >= |SSL| {
        MovedOccurs(p, x, w, i - |SSL|);
      }
    }
  }

  lemma MovedMode(p: string, m: string)
    requires StartsWith(p, SSLMODE) && ModeInFront(p, m)
    ensures ModeInFront(SSL + p[|SSLMODE|..], m)
  {
    MovedIsFree(p, SSLMODE + m);
  }

  lemma MovedIsWhole(p: string)
    requires WholeParameter(p) && StartsWith(p, SSLMODE)
    ensures WholeParameter(SSL + p[|SSLMODE|..])
  {
    var x := p[|SSLMODE|..];
    var q := SSL + x;
    assert p == p[..|SSLMODE|] + x;
    MovedIsFree(p, "?" + REQUIRE);
    MovedMode(p, "require");
    MovedMode(p, "disable");
    MovedMode(p, "prefer");
    MovedMode(p, "allow");
    Misfit(q, REQUIRE, 0, 0);
    Misfit(q, DISABLE, 0, 0);
    assert forall c :: c in q ==> c in SSL || c in p;
    assert '&' !in q;
  }

  lemma MovedOccurs(p: string, x: string, w: string, i: nat)
    requires w != "" && |p| >= |SSLMODE| && p[|SSLMODE|..] == x && OnlyAtStart(p, w) && i < |x|
    ensures !OccursAt(SSL + x, w, |SSL| + i)
  {
    OccursRight(SSL, x, w, i);
    OccursRight(p[..|SSLMODE|], x, w, i);
    assert p[..|SSLMODE|] + x == p;
  }

  lemma RelabelKeepsWhole(p: string, mode: string)
    requires WholeParameter(p)
    ensures WholeParameter(RelabelMode(p, mode))
  {
    RelabelModeIs(p, mode);
    if StartsWith(p, SSLMODE) {
      MovedIsWhole(p);
    }
  }

  // ---------------------------------------------------------------- the whole URL

  lemma ModeStep(base: string, ps: seq<string>, mode: string)
    requires NoMode(base, mode) && WholeParameters(ps) && '&' !in mode && '?' !in mode
    requires forall p :: p in ps ==> ModeInFront(p, mode)
    ensures var qs := RelabelAll(ps, SSLMODE + mode, SSL + mode);
            RenameMode(Print(base, ps), mode) == Print(base, qs) && WholeParameters(qs)
  {
    var w := SSLMODE + mode;
    RelabelUrl(base, ps, w, SSL + mode);
    forall q | q in RelabelAll(ps, w, SSL + mode) ensures WholeParameter(q) {
      var k :| 0 <= k < |ps| && q == Relabel(ps[k], w, SSL + mode);
      assert ps[k] in ps;
      RelabelKeepsWhole(ps[k], mode);
    }
  }

  lemma ModesAreRenamed(base: string, ps: seq<string>)
    requires PlainBase(base) && WholeParameters(ps)
    ensures RenameModes(Print(base, ps)) == Print(base, RenameAll(ps))
    ensures WholeParameters(RenameAll(ps))
  {
    ModeStep(base, ps, "require");
    var p1 := RelabelAll(ps, SSLMODE + "require", SSL + "require");
    ModeStep(base, p1, "disable");
    var p2 := RelabelAll(p1, SSLMODE + "disable", SSL + "disable");
    ModeStep(base, p2, "prefer");
    var p3 := RelabelAll(p2, SSLMODE + "prefer", SSL + "prefer");
    ModeStep(base, p3, "allow");
    var p4 := RelabelAll(p3, SSLMODE + "allow", SSL + "allow");
    assert p4 == RenameAll(ps) by {
      forall k | 0 <= k < |ps| ensures p4[k] == Renamed(ps[k]) {
        FourModes(ps[k]);
      }
    }
  }

  /** Everything after the first place, without the two channel_binding parameters. */
  function Later(qs: seq<string>): (rs: seq<string>)
    requires qs != []
  {
    Without(Without(qs[1..], REQUIRE), DISABLE)
  }

  lemma LaterIsDropped(base: string, qs: seq<string>)
    requires PlainBase(base) && WholeParameters(qs) && qs != []
    ensures Replace(Replace(Print(base, qs), "&" + REQUIRE, ""), "&" + DISABLE, "") == Print(base, qs[..1] + Later(qs))
  {
    var q1 := qs[..1] + Without(qs[1..], REQUIRE);
    DropLater(base, qs, REQUIRE);
    assert q1[1..] == Without(qs[1..], REQUIRE) && q1[..1] == qs[..1];
    AllWhole(qs, q1);
    DropLater(base, q1, DISABLE);
  }

  lemma AllWhole(qs: seq<string>, rs: seq<string>)
    requires WholeParameters(qs) && forall r :: r in rs ==> r in qs
    ensures WholeParameters(rs)
  {
  }

  lemma BindingIsDropped(base: string, qs: seq<string>)
    requires PlainBase(base) && WholeParameters(qs) && qs != []
    ensures DropBinding(Print(base, qs)) ==
              Print(base, if qs[0] == REQUIRE then Later(qs) else qs[..1] + Later(qs))
  {
    LaterIsDropped(base, qs);
    var q2 := qs[..1] + Later(qs);
    assert q2[1..] == Later(qs) && q2[0] == qs[0];
    AllWhole(qs, q2);
    LaterHasNone(qs);
    DropFirst(base, q2, REQUIRE);
  }

  lemma LaterHasNone(qs: seq<string>)
    requires qs != []
    ensures REQUIRE !in Later(qs) && DISABLE !in Later(qs)
  {
  }

  lemma NothingToDrop(base: string)
    requires PlainBase(base)
    ensures DropBinding(base) == base
  {
    LacksChar(base, "?" + REQUIRE, 0);
    LacksChar(base, "?" + REQUIRE + "&", 0);
    FreeIsKept(base, "&" + REQUIRE, "");
    FreeIsKept(base, "&" + DISABLE, "");
    FreeIsKept(base, "?" + REQUIRE + "&", "?");
    FreeIsKept(base, "?" + REQUIRE, "");
  }

  lemma BaseStarts(base: string, query: string, w: string)
    requires w != "" && '?' !in w && (query == "" || query[0] == '?')
    ensures StartsWith(base + query, w) <==> StartsWith(base, w)
  {
    if |w| > |base| {
      Misfit(base + query, w, 0, |base|);
    } else {
      assert forall k :: 0 <= k < |w| ==> base[k] == (base + query)[k];
    }
  }

  lemma SchemeInBase(base: string, query: string, w: string)
    requires w != "" && '?' !in w && (query == "" || query[0] == '?')
    ensures StartsWith(base + query, w) <==> StartsWith(base, w)
    ensures StartsWith(base, w) ==> ASYNC_SCHEME + (base + query)[|w|..] == ASYNC_SCHEME + base[|w|..] + query
  {
    BaseStarts(base, query, w);
    if StartsWith(base, w) {
      assert (base + query)[|w|..] == base[|w|..] + query;
    }
  }

  lemma SchemeOfUrl(base: string, ps: seq<string>)
    ensures Rescheme(Print(base, ps)) == Print(Rescheme(base), ps)
  {
    var query := if ps == [] then "" else "?" + ps[0] + Tail(ps[1..]);
    SchemeInBase(base, query, SCHEMES[0]);
    SchemeInBase(base, query, SCHEMES[1]);
    assert Print(base, ps) == base + query && Print(Rescheme(base), ps) == Rescheme(base) + query;
  }

  /** Nowhere in a does w's first letter stand at the end or before w's second. */
  predicate CannotStart(a: string, w: string)
    requires |w| >= 2
  {
    forall i :: 0 <= i < |a| ==> a[i] != w[0] || (i + 1 < |a| && a[i + 1] != w[1])
  }

  lemma FreeBehind(a: string, rest: string, w: string)
    requires |w| >= 2 && Free(rest, w) && CannotStart(a, w)
    ensures Free(a + rest, w)
  {
    forall i | 0 <= i < |a + rest| ensures !OccursAt(a + rest, w, i) {
      if i < |a| {
        Misfit(a + rest, w, i, if a[i] != w[0] then 0 else 1);
      } else {
        OccursRight(a, rest, w, i - |a|);
      }
    }
  }

  lemma {:induction false} PrefixFrom(a: string, rest: string, w: string, r: string, i: nat)
    requires |w| >= 2 && i <= |a| && CannotStart(a, w)
    ensures ReplaceFrom(a + rest, w, r, i) == a[i..] + Replace(rest, w, r)
    decreases |a| - i
  {
    if i == |a| {
      ReplaceRight(a, rest, w, r, 0);
      assert a[i..] == "";
    } else {
      Misfit(a + rest, w, i, if a[i] != w[0] then 0 else 1);
      PrefixFrom(a, rest, w, r, i + 1);
      PrefixMoves([a[i]], ReplaceFrom(a + rest, w, r, i + 1), a[i + 1..], Replace(rest, w, r));
      assert a[i..] == [a[i]] + a[i + 1..];
    }
  }

  lemma PrefixIsKept(a: string, rest: string, w: string, r: string)
    requires |w| >= 2 && CannotStart(a, w)
    ensures Replace(a + rest, w, r) == a + Replace(rest, w, r)
  {
    PrefixFrom(a, rest, w, r, 0);
    assert a[0..] == a;
  }

  lemma ModeBehindScheme(rest: string, mode: string)
    ensures RenameMode(ASYNC_SCHEME + rest, mode) == ASYNC_SCHEME + RenameMode(rest, mode)
  {
    assert (SSLMODE + mode)[0] == 's' && (SSLMODE + mode)[1] == 's';
    PrefixIsKept(ASYNC_SCHEME, rest, SSLMODE + mode, SSL + mode);
  }

  lemma BindingBehindScheme(rest: string, w: string, r: string)
    requires |w| >= 2 && (w[0] == '&' || w[0] == '?')
    ensures Replace(ASYNC_SCHEME + rest, w, r) == ASYNC_SCHEME + Replace(rest, w, r)
  {
    PrefixIsKept(ASYNC_SCHEME, rest, w, r);
  }

  /** Behind the scheme the chain goes on as if there were none. */
  lemma ChainBehindScheme(rest: string)
    ensures DropBinding(RenameModes(ASYNC_SCHEME + rest)) == ASYNC_SCHEME + DropBinding(RenameModes(rest))
  {
    var m1 := RenameMode(rest, "require");
    var m2 := RenameMode(m1, "disable");
    var m3 := RenameMode(m2, "prefer");
    ModeBehindScheme(rest, "require");
    ModeBehindScheme(m1, "disable");
    ModeBehindScheme(m2, "prefer");
    ModeBehindScheme(m3, "allow");
    var u0 := RenameModes(rest);
    var u1 := Replace(u0, "&" + REQUIRE, "");
    var u2 := Replace(u1, "&" + DISABLE, "");
    BindingBehindScheme(u0, "&" + REQUIRE, "");
    BindingBehindScheme(u1, "&" + DISABLE, "");
    BindingBehindScheme(u2, "?" + REQUIRE + "&", "?");
    BindingBehindScheme(Replace(u2, "?" + REQUIRE + "&", "?"), "?" + REQUIRE, "");
  }

  /** All three schemes come out as the one that asyncpg is registered under. */
  lemma SchemesAlike(rest: string)
    ensures Rewrite("postgresql://" + rest) == "postgresql+asyncpg://" + DropBinding(RenameModes(rest))
    ensures Rewrite("postgres://" + rest) == Rewrite("postgresql://" + rest)
    ensures Rewrite("postgresql+asyncpg://" + rest) == Rewrite("postgresql://" + rest)
  {
    ChainBehindScheme(rest);
    var a, b, c := "postgresql://" + rest, "postgres://" + rest, "postgresql+asyncpg://" + rest;
    assert a[|"postgresql://"|..] == rest && b[|"postgres://"|..] == rest;
    Misfit(b, "postgresql://", 0, 8);
    Misfit(c, "postgresql://", 0, 10);
    Misfit(c, "postgres://", 0, 8);
  }

  predicate Schemed(raw: string) {
    || StartsWith(raw, "postgresql://") || StartsWith(raw, "postgres://")
    || StartsWith(raw, "postgresql+asyncpg://")
  }

  /** A URL with one of the schemes always comes out with the one of asyncpg. */
  lemma SchemedBecomesAsync(raw: string)
    requires Schemed(raw)
    ensures StartsWith(Rewrite(raw), "postgresql+asyncpg://")
  {
    var w := if StartsWith(raw, "postgresql://") then "postgresql://"
             else if StartsWith(raw, "postgres://") then "postgres://" else "postgresql+asyncpg://";
    assert raw == w + raw[|w|..];
    SchemesAlike(raw[|w|..]);
  }

  lemma DroppedIsFree(base: string, n: nat, w: string)
    requires n <= |base| && Free(base, w)
    ensures w != "" ==> Free(base[n..], w)
  {
    forall i | 0 <= i < |base[n..]| ensures !OccursAt(base[n..], w, i) {
      OccursRight(base[..n], base[n..], w, i);
      assert base[..n] + base[n..] == base;
    }
  }

  lemma SchemeKeepsFree(base: string, w: string)
    requires |w| >= 2 && Free(base, w) && CannotStart(ASYNC_SCHEME, w)
    ensures Free(Rescheme(base), w)
  {
    if StartsWith(base, SCHEMES[0]) {
      DroppedIsFree(base, |SCHEMES[0]|, w);
      FreeBehind(ASYNC_SCHEME, base[|SCHEMES[0]|..], w);
    } else if StartsWith(base, SCHEMES[1]) {
      DroppedIsFree(base, |SCHEMES[1]|, w);
      FreeBehind(ASYNC_SCHEME, base[|SCHEMES[1]|..], w);
    }
  }

  lemma SchemeKeepsMode(base: string, m: string)
    requires NoMode(base, m)
    ensures NoMode(Rescheme(base), m)
  {
    assert (SSLMODE + m)[0] == 's' && (SSLMODE + m)[1] == 's';
    SchemeKeepsFree(base, SSLMODE + m);
  }

  lemma SchemeKeepsBase(base: string)
    requires PlainBase(base)
    ensures PlainBase(Rescheme(base))
  {
    SchemeKeepsMode(base, "require");
    SchemeKeepsMode(base, "disable");
    SchemeKeepsMode(base, "prefer");
    SchemeKeepsMode(base, "allow");
    SchemeKeepsFree(base, "&" + REQUIRE);
    SchemeKeepsFree(base, "&" + DISABLE);
    assert '?' !in ASYNC_SCHEME && forall c :: c in Rescheme(base) ==> c in ASYNC_SCHEME || c in base;
  }

  lemma PrintLength(base: string, p: string, ps: seq<string>)
    ensures |Print(base, [p] + ps)| > |Print(base, ps)|
  {
    assert ([p] + ps)[1..] == ps;
    if ps != [] {
      assert Tail(ps) == "&" + ps[0] + Tail(ps[1..]);
    }
  }

  lemma RenamedBinding(p: string)
    ensures Renamed(p) == REQUIRE <==> p == REQUIRE
    ensures Renamed(p) == DISABLE <==> p == DISABLE
  {
    assert !StartsWith(REQUIRE, SSLMODE) && !StartsWith(DISABLE, SSLMODE) by {
      Misfit(REQUIRE, SSLMODE, 0, 0);
      Misfit(DISABLE, SSLMODE, 0, 0);
    }
    assert (SSL + p[..0])[0] == 's';
  }

  /** What the chain does, parameter by parameter: a first channel_binding=disable survives it. */
  lemma RewriteIs(base: string, ps: seq<string>)
    requires PlainBase(base) && WholeParameters(ps)
    ensures Rewrite(Print(base, ps)) ==
              Print(Rescheme(base), if ps != [] && ps[0] == DISABLE then [DISABLE] + Kept(ps) else Kept(ps))
  {
    SchemeOfUrl(base, ps);
    SchemeKeepsBase(base);
    var b, qs := Rescheme(base), RenameAll(ps);
    ModesAreRenamed(b, ps);
    if ps == [] {
      NothingToDrop(b);
    } else {
      BindingIsDropped(b, qs);
      RenamedBinding(ps[0]);
      KeptFirst(qs);
    }
  }

  lemma KeptFirst(qs: seq<string>)
    requires qs != []
    ensures Without(Without(qs, REQUIRE), DISABLE) ==
              if qs[0] == REQUIRE || qs[0] == DISABLE then Later(qs) else qs[..1] + Later(qs)
  {
    var rest := Without(qs[1..], REQUIRE);
    if qs[0] != REQUIRE {
      assert ([qs[0]] + rest)[1..] == rest;
    }
    assert qs[..1] == [qs[0]];
  }

  /**
   * The chain of replacements is the edit of the parameter list, whatever place a dropped
   * parameter held, except in one case: channel_binding=disable as the first parameter.
   */
  lemma RewriteIsParameterMap(raw: string)
    requires PlainBase(Base(raw)) && WholeParameters(Parameters(raw))
    ensures Rewrite(raw) == Print(Rescheme(Base(raw)), Kept(Parameters(raw)))
            <==> !(Parameters(raw) != [] && Parameters(raw)[0] == DISABLE)
  {
    PrintOfParts(raw);
    RewriteIs(Base(raw), Parameters(raw));
    PrintLength(Rescheme(Base(raw)), DISABLE, Kept(Parameters(raw)));
  }

  lemma LacksMode(s: string, m: string, k: nat)
    requires k < |SSLMODE| && SSLMODE[k] !in s
    ensures NoMode(s, m) && ModeInFront(s, m)
  {
    assert (SSLMODE + m)[k] == SSLMODE[k];
    LacksChar(s, SSLMODE + m, k);
  }

  lemma QueryOf(base: string, ps: seq<string>) returns (query: string)
    ensures Print(base, ps) == base + query && (query == "" || query[0] == '?')
  {
    query := if ps == [] then "" else "?" + ps[0] + Tail(ps[1..]);
  }

  /**
   * When the replaced texts stand in parameters only, no other URL does, and what stands before the
   * parameters of another URL is kept.
   */
  lemma AsyncIffSchemed(raw: string)
    requires PlainBase(Base(raw)) && WholeParameters(Parameters(raw))
    ensures StartsWith(Rewrite(raw), "postgresql+asyncpg://") <==> Schemed(raw)
    ensures !Schemed(raw) ==> Base(Rewrite(raw)) == Base(raw)
  {
    var base := Base(raw);
    if Schemed(raw) {
      SchemedBecomesAsync(raw);
    } else {
      PrintOfParts(raw);
      var before := QueryOf(base, Parameters(raw));
      BaseStarts(base, before, "postgresql://");
      BaseStarts(base, before, "postgres://");
      BaseStarts(base, before, "postgresql+asyncpg://");
      assert Rescheme(base) == base;
      RewriteIs(base, Parameters(raw));
      var kept := if Parameters(raw) != [] && Parameters(raw)[0] == DISABLE then [DISABLE] + Kept(Parameters(raw))
                  else Kept(Parameters(raw));
      var after := QueryOf(base, kept);
      BaseOfPrint(base, after);
      BaseStarts(base, after, "postgresql+asyncpg://");
    }
  }

  lemma ModesAbsent(raw: string)
    requires 'm' !in raw
    ensures RenameModes(raw) == raw
  {
    LacksMode(raw, "require", 3);
    LacksMode(raw, "disable", 3);
    LacksMode(raw, "prefer", 3);
    LacksMode(raw, "allow", 3);
    FreeIsKept(raw, SSLMODE + "require", SSL + "require");
    FreeIsKept(raw, SSLMODE + "disable", SSL + "disable");
    FreeIsKept(raw, SSLMODE + "prefer", SSL + "prefer");
    FreeIsKept(raw, SSLMODE + "allow", SSL + "allow");
  }

  lemma OneIsDropped(head: string, tail: string, w: string)
    requires |w| >= 2 && CannotStart(head, w) && Free(tail, w)
    ensures Replace(head + (w + tail), w, "") == head + tail
  {
    PrefixIsKept(head, w + tail, w, "");
    ReplaceRight(w, tail, w, "", 0);
    FreeIsKept(tail, w, "");
    assert OccursAt(w + tail, w, 0);
  }

  lemma BrokenScheme(head: string, rest: string)
    requires |head| == 16 && head[8] == 'q' && head[10] == '+' && rest != "" && rest[0] == '&'
    ensures !Schemed(head + rest) && Rescheme(head + rest) == head + rest
  {
    var raw := head + rest;
    assert raw[8] == head[8] && raw[10] == head[10] && raw[16] == rest[0];
    Misfit(raw, "postgresql://", 0, 10);
    Misfit(raw, "postgres://", 0, 8);
    Misfit(raw, "postgresql+asyncpg://", 0, 16);
  }

  lemma RewriteOfBroken(head: string, tail: string)
    requires |head| == 16 && head[8] == 'q' && head[10] == '+' && 'm' !in head && 'm' !in tail
    requires '&' !in head && '&' !in tail && head + tail == ASYNC_SCHEME
    ensures Rewrite(head + ("&" + REQUIRE + tail)) == ASYNC_SCHEME
  {
    var w := "&" + REQUIRE;
    BrokenScheme(head, w + tail);
    assert 'm' !in w;
    ModesAbsent(head + (w + tail));
    LacksChar(tail, w, 0);
    OneIsDropped(head, tail, w);
    SchemeHasNoBinding();
  }

  /** Of every text the same does not hold: dropping a parameter can put a scheme together. */
  lemma SchemeFromDropped()
    ensures var raw := "postgresql+async" + ("&channel_binding=require" + "pg://");
      !Schemed(raw) && Rewrite(raw) == "postgresql+asyncpg://"
  {
    BindingWords();
    BrokenScheme("postgresql+async", "&channel_binding=require" + "pg://");
    RewriteOfBroken("postgresql+async", "pg://");
  }

  lemma SchemeHasNoBinding()
    ensures Replace(ASYNC_SCHEME, "&" + DISABLE, "") == ASYNC_SCHEME
    ensures Replace(ASYNC_SCHEME, "?" + REQUIRE + "&", "?") == ASYNC_SCHEME
    ensures Replace(ASYNC_SCHEME, "?" + REQUIRE, "") == ASYNC_SCHEME
  {
    LacksChar(ASYNC_SCHEME, "&" + DISABLE, 0);
    LacksChar(ASYNC_SCHEME, "?" + REQUIRE + "&", 0);
    LacksChar(ASYNC_SCHEME, "?" + REQUIRE, 0);
    FreeIsKept(ASYNC_SCHEME, "&" + DISABLE, "");
    FreeIsKept(ASYNC_SCHEME, "?" + REQUIRE + "&", "?");
    FreeIsKept(ASYNC_SCHEME, "?" + REQUIRE, "");
  }

  lemma DisableIsWhole()
    ensures WholeParameter(DISABLE)
  {
    LacksChar(DISABLE, "?" + REQUIRE, 0);
    LacksMode(DISABLE, "require", 3);
    LacksMode(DISABLE, "disable", 3);
    LacksMode(DISABLE, "prefer", 3);
    LacksMode(DISABLE, "allow", 3);
    Misfit(DISABLE, REQUIRE, 0, 16);
  }

  lemma WithoutOne(p: string, x: string)
    ensures Without([p], x) == if p == x then [] else [p]
  {
    assert [p][1..] == [];
  }

  lemma KeptDisable()
    ensures Kept([DISABLE]) == []
  {
    RenamedBinding(DISABLE);
    assert RenameAll([DISABLE]) == [DISABLE];
    WithoutOne(DISABLE, REQUIRE);
    WithoutOne(DISABLE, DISABLE);
  }

  lemma PrintOne(base: string, p: string)
    ensures Print(base, [p]) == base + "?" + p
  {
    assert [p][1..] == [] && "?" + p + "" == "?" + p;
  }

  lemma LoneParts(base: string, p: string)
    requires '?' !in base && '=' !in base && WholeParameter(p)
    ensures var raw := base + "?" + p;
      Base(raw) == base && Parameters(raw) == [p] && PlainBase(base) && WholeParameters([p])
  {
    LacksMode(base, "require", 7);
    LacksMode(base, "disable", 7);
    LacksMode(base, "prefer", 7);
    LacksMode(base, "allow", 7);
    LacksChar(base, "&" + REQUIRE, 16);
    LacksChar(base, "&" + DISABLE, 16);
    PrintOne(base, p);
    PartsOfPrint(base, [p]);
  }

  lemma ReschemeStart(rest: string)
    ensures Rescheme(SCHEMES[0] + rest) == ASYNC_SCHEME + rest
  {
    assert (SCHEMES[0] + rest)[|SCHEMES[0]|..] == rest;
  }

  /**
   * The failing case occurs: postgresql://h/db?channel_binding=disable, say, has nothing else wrong
   * with it, and the parameter stays.
   */
  lemma FirstDisableStays(rest: string)
    requires '?' !in rest && '=' !in rest
    ensures var raw := SCHEMES[0] + rest + "?" + DISABLE;
      && PlainBase(Base(raw)) && WholeParameters(Parameters(raw))
      && Rewrite(raw) == ASYNC_SCHEME + rest + "?" + DISABLE
      && Print(Rescheme(Base(raw)), Kept(Parameters(raw))) == ASYNC_SCHEME + rest
  {
    var base, ps := SCHEMES[0] + rest, [DISABLE];
    DisableIsWhole();
    LoneParts(base, DISABLE);
    KeptDisable();
    ReschemeStart(rest);
    PrintOne(base, DISABLE);
    PrintOne(ASYNC_SCHEME + rest, DISABLE);
    RewriteIs(base, ps);
    assert [DISABLE] + Kept(ps) == ps;
  }
}
