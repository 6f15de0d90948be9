/** A URL as a base and a list of query parameters: writing, reading, and what text replacements do to it. */
module QueryParameters {
  import opened StrReplace
  import opened Text

  function Tail(ps: seq<string>): (t: string) {
    if ps == [] then "" else "&" + ps[0] + Tail(ps[1..])
  }

  /** A base and its query parameters, written out. */
  function Print(base: string, ps: seq<string>): (t: string) {
    if ps == [] then base else base + ("?" + ps[0] + Tail(ps[1..]))
  }

  function RelabelAll(ps: seq<string>, w: string, r: string): (qs: seq<string>)
    ensures |qs| == |ps| && forall k :: 0 <= k < |ps| ==> qs[k] == Relabel(ps[k], w, r)
  {
    seq(|ps|, k requires 0 <= k < |ps| => Relabel(ps[k], w, r))
  }

  function Without(ps: seq<string>, x: string): (qs: seq<string>)
    ensures x !in qs
    ensures forall p :: p in qs ==> p in ps
  {
    if ps == [] then []
    else if ps[0] == x then Without(ps[1..], x)
    else [ps[0]] + Without(ps[1..], x)
  }

  lemma {:induction false} WithoutKeeps(ps: seq<string>, x: string, p: string)
    ensures p in Without(ps, x) <==> p in ps && p != x
  {
    if ps == [] {
    } else {
      WithoutKeeps(ps[1..], x, p);
      assert p in ps <==> p == ps[0] || p in ps[1..];
    }
  }

  lemma {:induction false} RelabelTail(ps: seq<string>, w: string, r: string)
    requires w != "" && '&' !in w && forall p :: p in ps ==> OnlyAtStart(p, w)
    ensures Replace(Tail(ps), w, r) == Tail(RelabelAll(ps, w, r))
  {
    if ps == [] {
    } else {
      RelabelTail(ps[1..], w, r);
      assert RelabelAll(ps, w, r)[1..] == RelabelAll(ps[1..], w, r);
      Cut("&" + ps[0], Tail(ps[1..]), w, r);
      RelabelOne("&", ps[0], w, r);
    }
  }

  lemma RelabelOne(mark: string, p: string, w: string, r: string)
    requires |mark| == 1 && w != "" && mark[0] !in w && OnlyAtStart(p, w)
    ensures Replace(mark + p, w, r) == mark + Relabel(p, w, r)
  {
    Misfit(mark + p, w, 0, 0);
    ReplaceRight(mark, p, w, r, 0);
    ReplaceIsRelabel(p, w, r);
  }

  /** Replacing a word without separators edits each parameter that starts with it. */
  lemma RelabelUrl(base: string, ps: seq<string>, w: string, r: string)
    requires w != "" && '&' !in w && '?' !in w && Free(base, w)
    requires forall p :: p in ps ==> OnlyAtStart(p, w)
    ensures Replace(Print(base, ps), w, r) == Print(base, RelabelAll(ps, w, r))
  {
    FreeIsKept(base, w, r);
    if ps != [] {
      var query := "?" + ps[0];
      Cut(base, query + Tail(ps[1..]), w, r);
      Cut(query, Tail(ps[1..]), w, r);
      RelabelOne("?", ps[0], w, r);
      RelabelTail(ps[1..], w, r);
      assert RelabelAll(ps, w, r)[1..] == RelabelAll(ps[1..], w, r);
    }
  }

  /** x is a whole parameter wherever one starts with it. */
  predicate Whole(p: string, x: string) {
    StartsWith(p, x) ==> p == x
  }

  lemma MarkedOnce(p: string, x: string)
    requires '&' !in p && p != x && Whole(p, x)
    ensures Free("&" + p, "&" + x)
  {
    forall i | 0 <= i < |"&" + p| ensures !OccursAt("&" + p, "&" + x, i) {
      OccursRight("&", p, x, 0);
      OccursParts("&" + p, "&", x, 0);
      if i > 0 {
        Misfit("&" + p, "&" + x, i, 0);
      }
    }
  }

  lemma {:induction false} DropTail(ps: seq<string>, x: string)
    requires '&' !in x && forall p :: p in ps ==> '&' !in p && Whole(p, x)
    ensures Replace(Tail(ps), "&" + x, "") == Tail(Without(ps, x))
  {
    if ps == [] {
    } else {
      var w, a := "&" + x, "&" + ps[0];
      assert w[1..] == x;
      DropTail(ps[1..], x);
      Cut(a, Tail(ps[1..]), w, "");
      if ps[0] == x {
        assert ReplaceFrom(a, w, "", |w|) == "";
      } else {
        MarkedOnce(ps[0], x);
        FreeIsKept(a, w, "");
      }
    }
  }

  /** Deleting "&x" drops x from every place but the first. */
  lemma DropLater(base: string, ps: seq<string>, x: string)
    requires '&' !in x && '?' !in x && Free(base, "&" + x) && ps != []
    requires forall p :: p in ps ==> '&' !in p && Whole(p, x)
    ensures Replace(Print(base, ps), "&" + x, "") == Print(base, ps[..1] + Without(ps[1..], x))
  {
    var w, query := "&" + x, "?" + ps[0];
    assert w[1..] == x;
    Cut(base, query + Tail(ps[1..]), w, "");
    Cut(query, Tail(ps[1..]), w, "");
    FreeIsKept(base, w, "");
    assert '&' !in query;
    forall i | 0 <= i < |query| ensures !OccursAt(query, w, i) {
      Misfit(query, w, i, 0);
    }
    FreeIsKept(query, w, "");
    DropTail(ps[1..], x);
    var qs := ps[..1] + Without(ps[1..], x);
    assert qs[0] == ps[0] && qs[1..] == Without(ps[1..], x);
  }

  /** No occurrence of "?x" past the first parameter. */
  lemma QueryMarkOnce(p: string, mark: char, x: string)
    requires mark != '?' && Free(p, "?" + x)
    ensures Free([mark] + p, "?" + x)
  {
    forall i | 0 <= i < |[mark] + p| ensures !OccursAt([mark] + p, "?" + x, i) {
      if i == 0 {
        Misfit([mark] + p, "?" + x, 0, 0);
      } else {
        OccursRight([mark], p, "?" + x, i - 1);
      }
    }
  }

  lemma {:induction false} TailIsFree(ps: seq<string>, x: string)
    requires '&' !in x && forall p :: p in ps ==> Free(p, "?" + x)
    ensures Free(Tail(ps), "?" + x)
  {
    if ps == [] {
    } else {
      TailIsFree(ps[1..], x);
      QueryMarkOnce(ps[0], '&', x);
      assert ("?" + x)[1..] == x;
      FreeOfBoth("&" + ps[0], Tail(ps[1..]), "?" + x);
    }
  }

  lemma FirstIsFree(ps: seq<string>, x: string)
    requires '&' !in x && ps != [] && ps[0] != x && Whole(ps[0], x)
    requires forall p :: p in ps ==> Free(p, "?" + x)
    ensures Free("?" + ps[0] + Tail(ps[1..]), "?" + x)
  {
    var a, v := "?" + ps[0], "?" + x;
    assert ps[0] in ps;
    forall i | 0 <= i < |a| ensures !OccursAt(a, v, i) {
      if i == 0 {
        OccursRight("?", ps[0], x, 0);
        OccursParts(a, "?", x, 0);
      } else {
        OccursRight("?", ps[0], v, i - 1);
      }
    }
    TailIsFree(ps[1..], x);
    assert v[1..] == x;
    FreeOfBoth(a, Tail(ps[1..]), v);
  }

  /** The base holds no question mark, so replacing what starts with one leaves it alone. */
  lemma BaseIsKept(base: string, query: string, w: string, r: string)
    requires w != "" && w[0] == '?' && '?' !in w[1..] && '?' !in base && query != "" && query[0] == '?'
    ensures Replace(base + query, w, r) == base + Replace(query, w, r)
  {
    Cut(base, query, w, r);
    forall i | 0 <= i < |base| ensures !OccursAt(base, w, i) {
      Misfit(base, w, i, 0);
    }
    FreeIsKept(base, w, r);
  }

  lemma FirstOfMany(rest: string, x: string)
    requires x != "" && Free("?" + rest, "?" + x)
    ensures Replace("?" + x + "&" + rest, "?" + x + "&", "?") == "?" + rest
  {
    var w := "?" + x + "&";
    forall i | 0 <= i < |rest| ensures !OccursAt(rest, w, i) {
      OccursRight("?", rest, "?" + x, i);
      OccursParts(rest, "?" + x, "&", i);
    }
    FreeIsKept(rest, w, "?");
    ReplaceRight(w, rest, w, "?", 0);
  }

  /** Deleting a leading "?x&" or "?x" drops x from the first place. */
  lemma DropFirst(base: string, ps: seq<string>, x: string)
    requires x != "" && '&' !in x && '?' !in x && '?' !in base
    requires forall p :: p in ps ==> Free(p, "?" + x) && Whole(p, x)
    requires ps != [] && x !in ps[1..]
    ensures var first := Replace(Print(base, ps), "?" + x + "&", "?");
            Replace(first, "?" + x, "") == Print(base, if ps[0] == x then ps[1..] else ps)
  {
    var query := "?" + ps[0] + Tail(ps[1..]);
    var w, v := "?" + x + "&", "?" + x;
    assert w[1..] == x + "&" && v[1..] == x;
    BaseIsKept(base, query, w, "?");
    if ps[0] != x {
      FirstIsFree(ps, x);
      FreeOfLonger(query, v, "&");
      FreeIsKept(query, w, "?");
      FreeIsKept(query, v, "");
      BaseIsKept(base, query, v, "");
    } else if |ps| == 1 {
      assert query == v;
      FreeFrom(query, w, "?", 0);
      assert OccursAt(query, v, 0) && ReplaceFrom(query, v, "", |v|) == "";
      BaseIsKept(base, query, v, "");
    } else {
      var qs := ps[1..];
      var rest := qs[0] + Tail(qs[1..]);
      assert Tail(qs) == "&" + rest;
      assert query == "?" + x + "&" + rest;
      FirstIsFree(qs, x);
      assert "?" + qs[0] + Tail(qs[1..]) == "?" + rest;
      FirstOfMany(rest, x);
      FreeIsKept("?" + rest, v, "");
      BaseIsKept(base, "?" + rest, v, "");
    }
  }

  // ---------------------------------------------------------------- reading a URL

  /** What stands before the first question mark. */
  function Base(raw: string): (base: string)
    ensures '?' !in base && base <= raw
  {
    if raw == "" || raw[0] == '?' then "" else [raw[0]] + Base(raw[1..])
  }

  /** A query text cut at its ampersands. */
  function Fields(query: string): (ps: seq<string>)
    ensures ps != []
  {
    if query == "" then [""]
    else
      var rest := Fields(query[1..]);
      if query[0] == '&' then [""] + rest else [[query[0]] + rest[0]] + rest[1..]
  }

  function Parameters(raw: string): (ps: seq<string>) {
    if Base(raw) == raw then [] else Fields(raw[|Base(raw)| + 1..])
  }

  lemma FieldsAfterCut(rest: seq<string>, query: string)
    requires rest != [] && rest[0] + Tail(rest[1..]) == query
    ensures Tail(rest) == "&" + query
  {
    assert "&" + rest[0] + Tail(rest[1..]) == "&" + (rest[0] + Tail(rest[1..]));
  }

  lemma {:induction false} FieldsJoin(query: string)
    ensures var ps := Fields(query); ps[0] + Tail(ps[1..]) == query
  {
    if query == "" {
      assert Fields(query)[1..] == [];
    } else {
      var rest := Fields(query[1..]);
      FieldsJoin(query[1..]);
      if query[0] == '&' {
        FieldsAfterCut(rest, query[1..]);
        assert ([""] + rest)[1..] == rest;
      } else {
        assert ([[query[0]] + rest[0]] + rest[1..])[1..] == rest[1..];
        assert [query[0]] + rest[0] + Tail(rest[1..]) == [query[0]] + (rest[0] + Tail(rest[1..]));
      }
    }
  }

  lemma {:induction false} BaseEnds(raw: string)
    requires Base(raw) != raw
    ensures |Base(raw)| < |raw| && raw[|Base(raw)|] == '?'
  {
    if raw[0] == '?' {
    } else {
      BaseEnds(raw[1..]);
    }
  }

  lemma PrintOfFields(base: string, query: string)
    ensures Print(base, Fields(query)) == base + ("?" + query)
  {
    FieldsJoin(query);
    var ps := Fields(query);
    assert "?" + ps[0] + Tail(ps[1..]) == "?" + (ps[0] + Tail(ps[1..]));
  }

  lemma PrintOfCut(base: string, raw: string)
    requires base <= raw && |base| < |raw| && raw[|base|] == '?'
    ensures Print(base, Fields(raw[|base| + 1..])) == raw
  {
    PrintOfFields(base, raw[|base| + 1..]);
    assert raw == base + ("?" + raw[|base| + 1..]);
  }

  /** Every text is a base with a list of parameters. */
  lemma PrintOfParts(raw: string)
    ensures Print(Base(raw), Parameters(raw)) == raw
  {
    if Base(raw) != raw {
      BaseEnds(raw);
      PrintOfCut(Base(raw), raw);
    }
  }

  lemma {:induction false} BaseOfPrint(base: string, query: string)
    requires '?' !in base && (query == "" || query[0] == '?')
    ensures Base(base + query) == base
  {
    if base == "" {
      assert base + query == query;
    } else {
      BaseOfPrint(base[1..], query);
      assert (base + query)[1..] == base[1..] + query;
    }
  }

  lemma {:induction false} FieldsOfJoined(p: string, rest: seq<string>)
    requires '&' !in p && forall q :: q in rest ==> '&' !in q
    ensures Fields(p + Tail(rest)) == [p] + rest
    decreases |rest|, |p|
  {
    if p != "" {
      FieldsOfJoined(p[1..], rest);
      assert (p + Tail(rest))[1..] == p[1..] + Tail(rest);
      assert [p[0]] + p[1..] == p;
    } else if rest == [] {
      assert p + Tail(rest) == "";
    } else {
      FieldsOfJoined(rest[0], rest[1..]);
      assert (p + Tail(rest)) == "&" + (rest[0] + Tail(rest[1..]));
      assert [rest[0]] + rest[1..] == rest;
    }
  }

  /** The parts of a text can be read in one way only. */
  lemma PartsOfPrint(base: string, ps: seq<string>)
    requires '?' !in base && forall p :: p in ps ==> '&' !in p
    ensures Base(Print(base, ps)) == base && Parameters(Print(base, ps)) == ps
  {
    if ps == [] {
      BaseOfPrint(base, "");
      assert base + "" == base;
    } else {
      var query := "?" + ps[0] + Tail(ps[1..]);
      BaseOfPrint(base, query);
      FieldsOfJoined(ps[0], ps[1..]);
      assert (base + query)[|base| + 1..] == ps[0] + Tail(ps[1..]);
      assert [ps[0]] + ps[1..] == ps;
    }
  }
}
