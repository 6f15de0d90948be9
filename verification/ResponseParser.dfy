/** _parse_ai_response: the JSON object inside a model's answer, fences and chatter around it notwithstanding. */
module ResponseParser {
  import opened Text
  import opened Wrappers

  /** What json.loads made of the block, or the cleaned text when there is no block or it does not parse. */
  datatype Parsed<T> = Structured(value: T) | Raw(text: string)

  /** Three backticks at i. */
  predicate FenceAt(s: string, i: nat) {
    i + 3 <= |s| && s[i] == '`' && s[i + 1] == '`' && s[i + 2] == '`'
  }

  predicate TagAt(s: string, i: nat) {
    i + 4 <= |s| && s[i] == 'j' && s[i + 1] == 's' && s[i + 2] == 'o' && s[i + 3] == 'n'
  }

  /** Where the substitution goes on after position i. */
  function After(s: string, i: nat): (n: nat)
    requires i < |s|
    ensures i < n <= |s|
  {
    if FenceAt(s, i) then (if TagAt(s, i + 3) then i + 7 else i + 3) else i + 1
  }

  /** re.sub(r"```(?:json)?", "", s) from position i on. */
  function UnfenceFrom(s: string, i: nat): string
    requires i <= |s|
    decreases |s| - i
  {
    if i == |s| then "" else Kept(s, i) + UnfenceFrom(s, After(s, i))
  }

  function Kept(s: string, i: nat): string
    requires i < |s|
  {
    if FenceAt(s, i) then "" else [s[i]]
  }

  function Unfence(s: string): string {
    UnfenceFrom(s, 0)
  }

  predicate Backtick(c: char) { c == '`' }

  function Cleaned(raw: string): string {
    Strip(TrimRight(Strip(Unfence(raw)), Backtick))
  }

  /** \{.*\} over all characters, greedily: from the first opening to the last closing brace. */
  function FirstOpen(s: string): (i: nat)
    ensures i <= |s| && (i < |s| ==> s[i] == '{') && forall x :: 0 <= x < i ==> s[x] != '{'
  {
    if s == "" || s[0] == '{' then 0 else 1 + FirstOpen(s[1..])
  }

  /** The position after the last closing brace, 0 without one. */
  function LastClose(s: string): (j: nat)
    ensures j <= |s| && (j > 0 ==> s[j - 1] == '}') && forall x :: j <= x < |s| ==> s[x] != '}'
  {
    if s == "" || s[|s| - 1] == '}' then |s| else LastClose(s[..|s| - 1])
  }

  function Block(s: string): Option<string> {
    if FirstOpen(s) < LastClose(s) then Some(s[FirstOpen(s)..LastClose(s)]) else None
  }

  /** parse stands for json.loads, None for its JSONDecodeError. */
  function ParseResponse<T>(raw: string, parse: string -> Option<T>): Parsed<T> {
    var cleaned := Cleaned(raw);
    match Block(cleaned)
    case Some(b) => (match parse(b) case Some(v) => Structured(v) case None => Raw(cleaned))
    case None => Raw(cleaned)
  }

  // ---------------------------------------------------------------- fences

  predicate FenceChar(c: char) {
    c in "`json"
  }

  /** From n on, s is b. */
  predicate EndsAs(s: string, n: nat, b: string) {
    n + |b| == |s| && forall x {:trigger b[x]} :: 0 <= x < |b| ==> s[n + x] == b[x]
  }

  lemma {:induction false} EndIsRead(s: string, n: nat, b: string, k: nat)
    requires EndsAs(s, n, b) && k <= |b|
    ensures UnfenceFrom(s, n + k) == UnfenceFrom(b, k)
    decreases |b| - k
  {
    if k == |b| {
    } else {
      EndIsAfter(s, n, b, k);
      var m := After(b, k);
      EndIsRead(s, n, b, m);
      assert UnfenceFrom(b, k) == Kept(b, k) + UnfenceFrom(b, m);
    }
  }

  lemma EndIsAfter(s: string, n: nat, b: string, k: nat)
    requires EndsAs(s, n, b) && k < |b|
    ensures Kept(s, n + k) == Kept(b, k) && After(s, n + k) == n + After(b, k)
  {
    if k + 3 <= |b| {
      assert s[n + (k + 1)] == b[k + 1] && s[n + (k + 2)] == b[k + 2];
    }
    if k + 7 <= |b| {
      assert s[n + (k + 3)] == b[k + 3] && s[n + (k + 4)] == b[k + 4] && s[n + (k + 5)] == b[k + 5]
          && s[n + (k + 6)] == b[k + 6];
    }
  }

  /** Past the boundary, a + b is read like b. */
  lemma UnfenceBehind(a: string, b: string, k: nat)
    requires k <= |b|
    ensures UnfenceFrom(a + b, |a| + k) == UnfenceFrom(b, k)
  {
    EndIsRead(a + b, |a|, b, k);
  }

  lemma InFront(x: string, s: string, t: string, rest: string)
    requires s == t + rest
    ensures x + s == (x + t) + rest
  {
  }

  /** No fence reaches over a boundary that has, on one side, a character that fences do not contain. */
  lemma {:induction false} UnfenceBefore(a: string, b: string, i: nat)
    requires i <= |a| && (a != "" && b != "" ==> !FenceChar(a[|a| - 1]) || !FenceChar(b[0]))
    ensures UnfenceFrom(a + b, i) == UnfenceFrom(a, i) + Unfence(b)
    decreases |a| - i
  {
    var s := a + b;
    if i == |a| {
      UnfenceBehind(a, b, 0);
    } else {
      StartIsAfter(a, b, i);
      var m := After(a, i);
      UnfenceBefore(a, b, m);
      InFront(Kept(a, i), UnfenceFrom(s, m), UnfenceFrom(a, m), Unfence(b));
    }
  }

  lemma StartIsAfter(a: string, b: string, i: nat)
    requires i < |a| && (b != "" ==> !FenceChar(a[|a| - 1]) || !FenceChar(b[0]))
    ensures Kept(a + b, i) == Kept(a, i) && After(a + b, i) == After(a, i)
  {
    var s := a + b;
    assert forall x :: 0 <= x < |a| ==> s[x] == a[x];
    assert b != "" ==> s[|a|] == b[0];
    assert FenceAt(s, i) == FenceAt(a, i);
    assert FenceAt(a, i) ==> TagAt(s, i + 3) == TagAt(a, i + 3);
  }

  lemma UnfenceSplit(a: string, b: string)
    requires a != "" && b != "" ==> !FenceChar(a[|a| - 1]) || !FenceChar(b[0])
    ensures Unfence(a + b) == Unfence(a) + Unfence(b)
  {
    UnfenceBefore(a, b, 0);
  }

  lemma {:induction false} UnfenceChars(s: string, i: nat, c: char)
    requires i <= |s| && c !in s
    ensures c !in UnfenceFrom(s, i)
    decreases |s| - i
  {
    if i == |s| {
    } else {
      assert s[i] in s;
      UnfenceChars(s, After(s, i), c);
    }
  }

  predicate NoFence(s: string) {
    forall i: nat :: i < |s| ==> !FenceAt(s, i)
  }

  lemma {:induction false} UnfenceKeeps(s: string, i: nat)
    requires NoFence(s) && i <= |s|
    ensures UnfenceFrom(s, i) == s[i..]
    decreases |s| - i
  {
    if i == |s| {
    } else {
      assert !FenceAt(s, i);
      UnfenceKeeps(s, i + 1);
    }
  }

  // ---------------------------------------------------------------- trims

  lemma {:induction false} TrimLeftOf(p: string, j: string, k: char -> bool)
    requires j != "" && !k(j[0])
    ensures TrimLeft(p + j, k) == TrimLeft(p, k) + j
  {
    if p == "" {
      assert p + j == j;
    } else {
      assert (p + j)[1..] == p[1..] + j;
      if k(p[0]) {
        TrimLeftOf(p[1..], j, k);
      }
    }
  }

  lemma {:induction false} TrimRightOf(j: string, q: string, k: char -> bool)
    requires j != "" && !k(j[|j| - 1])
    ensures TrimRight(j + q, k) == j + TrimRight(q, k)
  {
    if q == "" {
      assert j + q == j;
    } else {
      var n := |q| - 1;
      assert (j + q)[..|j + q| - 1] == j + q[..n];
      if k(q[n]) {
        TrimRightOf(j, q[..n], k);
      }
    }
  }

  lemma {:induction false} TrimLeftChars(s: string, k: char -> bool, c: char)
    requires c !in s
    ensures c !in TrimLeft(s, k)
  {
    if s == "" {
    } else if k(s[0]) {
      TrimLeftChars(s[1..], k, c);
    }
  }

  lemma {:induction false} TrimRightChars(s: string, k: char -> bool, c: char)
    requires c !in s
    ensures c !in TrimRight(s, k)
  {
    if s == "" {
    } else if k(s[|s| - 1]) {
      TrimRightChars(s[..|s| - 1], k, c);
    }
  }

  predicate Braced(j: string) {
    |j| >= 2 && j[0] == '{' && j[|j| - 1] == '}'
  }

  /** Trimming what surrounds a braced text leaves it in place, with no new brace around. */
  lemma CleanAround(p: string, j: string, q: string) returns (p': string, q': string)
    requires Braced(j) && '{' !in p && '}' !in q
    ensures Strip(TrimRight(Strip(p + j + q), Backtick)) == p' + j + q' && '{' !in p' && '}' !in q'
  {
    p', q' := StripAround(p, j, q);
    TrimRightOf(p' + j, q', Backtick);
    TrimRightChars(q', Backtick, '}');
    p', q' := StripAround(p', j, TrimRight(q', Backtick));
  }

  lemma StripAround(p: string, j: string, q: string) returns (p': string, q': string)
    requires Braced(j) && '{' !in p && '}' !in q
    ensures Strip(p + j + q) == p' + j + q' && '{' !in p' && '}' !in q'
  {
    p' := TrimLeft(p, IsSpace);
    q' := TrimRight(q, IsSpace);
    assert p + j + q == p + (j + q);
    TrimLeftOf(p, j + q, IsSpace);
    assert p' + (j + q) == (p' + j) + q;
    TrimRightOf(p' + j, q, IsSpace);
    TrimLeftChars(p, IsSpace, '{');
    TrimRightChars(q, IsSpace, '}');
  }

  lemma BlockBetween(p: string, j: string, q: string)
    requires Braced(j) && '{' !in p && '}' !in q
    ensures Block(p + j + q) == Some(j)
  {
    var s := p + j + q;
    var i, k := FirstOpen(s), LastClose(s);
    assert forall x :: 0 <= x < |p| ==> s[x] == p[x] && s[x] in p;
    assert s[|p|] == j[0] == '{';
    assert i == |p|;
    assert forall x :: |p + j| <= x < |s| ==> s[x] == q[x - |p + j|] && s[x] in q;
    assert s[|p + j| - 1] == j[|j| - 1] == '}';
    assert k == |p + j|;
    assert s[i..k] == j;
  }

  /** The block found around a braced text is that text without its fences. */
  lemma BlockIsUnfenced(prefix: string, j: string, suffix: string)
    requires Braced(j) && Braced(Unfence(j)) && '{' !in prefix && '}' !in suffix
    ensures Block(Cleaned(prefix + j + suffix)) == Some(Unfence(j))
  {
    UnfenceParts(prefix, j, suffix);
    UnfenceChars(prefix, 0, '{');
    UnfenceChars(suffix, 0, '}');
    BlockAround(prefix + j + suffix, Unfence(prefix), Unfence(j), Unfence(suffix));
  }

  lemma UnfenceParts(prefix: string, j: string, suffix: string)
    requires Braced(j)
    ensures Unfence(prefix + j + suffix) == Unfence(prefix) + Unfence(j) + Unfence(suffix)
  {
    UnfenceSplit(prefix, j);
    UnfenceSplit(prefix + j, suffix);
  }

  lemma BlockAround(raw: string, p: string, j: string, q: string)
    requires Unfence(raw) == p + j + q && Braced(j) && '{' !in p && '}' !in q
    ensures Block(Cleaned(raw)) == Some(j)
  {
    var p', q' := CleanAround(p, j, q);
    BlockBetween(p', j, q');
  }

  /**
   * Whatever stands before the first opening and after the last closing brace, fences included, an
   * object text without a fence in it is handed to the JSON parser as it is.
   */
  lemma ExtractorRoundTrip<T>(prefix: string, j: string, suffix: string, parse: string -> Option<T>)
    requires Braced(j) && NoFence(j) && '{' !in prefix && '}' !in suffix
    ensures parse(j).Some? ==> ParseResponse(prefix + j + suffix, parse) == Structured(parse(j).value)
    ensures parse(j).None? ==> ParseResponse(prefix + j + suffix, parse) == Raw(Cleaned(prefix + j + suffix))
  {
    UnfenceKeeps(j, 0);
    BlockIsUnfenced(prefix, j, suffix);
  }

  /** With a fence inside, the parser is handed the object without it. */
  lemma FencesInsideAreLost<T>(prefix: string, j: string, suffix: string, parse: string -> Option<T>)
    requires Braced(j) && '{' !in prefix && '}' !in suffix
    ensures parse(Unfence(j)).Some? ==> ParseResponse(prefix + j + suffix, parse) == Structured(parse(Unfence(j)).value)
  {
    UnfencedBraced(j);
    BlockIsUnfenced(prefix, j, suffix);
  }

  // ---------------------------------------------------------------- answers without an object

  /** No opening brace has a closing one after it. */
  predicate NoObject(s: string) {
    forall i, j :: 0 <= i < j < |s| ==> s[i] != '{' || s[j] != '}'
  }

  /** The block reaches from the first opening brace to the last closing one, and is there unless that is before. */
  lemma BlockIs(s: string)
    ensures Block(s).None? <==> NoObject(s)
    ensures Block(s).Some? ==> exists i, j ::
      && 0 <= i < j < |s| && s[i] == '{' && s[j] == '}' && Block(s).value == s[i..j + 1]
      && '{' !in s[..i] && '}' !in s[j + 1..]
  {
    var i, j := FirstOpen(s), LastClose(s) - 1;
    if i <= j {
      assert s[i] == '{' && s[j] == '}';
      assert s[i..j + 1] == Block(s).value;
    }
  }

  lemma OneMore(s: string, i: nat, j: nat, rest: string)
    requires i < j <= |s|
    ensures [s[i]] + (s[i + 1..j] + rest) == s[i..j] + rest
  {
    assert s[i..j] == [s[i]] + s[i + 1..j];
  }

  lemma {:induction false} NoTicksKept(s: string, i: nat, j: nat)
    requires i <= j <= |s| && forall x :: i <= x < j ==> s[x] != '`'
    ensures UnfenceFrom(s, i) == s[i..j] + UnfenceFrom(s, j)
    decreases j - i
  {
    if i == j {
      assert s[i..j] == "";
    } else {
      NoTicksKept(s, i + 1, j);
      assert After(s, i) == i + 1 && Kept(s, i) == [s[i]];
      OneMore(s, i, j, UnfenceFrom(s, j));
    }
  }

  /** A fence on either side goes, with its tag if there is one. */
  lemma FencesGo(t: string)
    requires '`' !in t
    ensures Unfence("```json" + t + "```") == t
    ensures !TagAt(t, 0) ==> Unfence("```" + t + "```") == t
  {
    FenceEnds("```json", t);
    assert ("```json" + t + "```")[3..7] == "json";
    var s := "```json" + t + "```";
    assert s[3] == 'j' && s[4] == 's' && s[5] == 'o' && s[6] == 'n';
    assert After(s, 0) == 7;
    if !TagAt(t, 0) {
      FenceEnds("```", t);
      UntaggedFence(t);
    }
  }

  lemma FenceEnds(open: string, t: string)
    requires '`' !in t
    ensures UnfenceFrom(open + t + "```", |open|) == t
  {
    var s, n := open + t + "```", |open|;
    assert forall x :: n <= x < n + |t| ==> s[x] == t[x - n] && t[x - n] in t;
    NoTicksKept(s, n, n + |t|);
    assert s[n..n + |t|] == t;
    assert FenceAt(s, n + |t|) && After(s, n + |t|) == |s|;
    assert UnfenceFrom(s, n + |t|) == "" + UnfenceFrom(s, |s|);
  }

  lemma UntaggedFence(t: string)
    requires '`' !in t && !TagAt(t, 0)
    ensures var s := "```" + t + "```"; FenceAt(s, 0) && After(s, 0) == 3
  {
    var s := "```" + t + "```";
    assert s[3 + |t|] == '`' && s[3 + |t| + 1] == '`' && s[3 + |t| + 2] == '`';
    assert forall k :: 0 <= k < |t| ==> s[3 + k] == t[k];
  }

  lemma {:induction false} NoTickTrim(s: string)
    requires '`' !in s
    ensures TrimRight(s, Backtick) == s
  {
    assert s != "" ==> s[|s| - 1] in s;
  }

  lemma CleanedIs(raw: string, t: string)
    requires Unfence(raw) == t && '`' !in t
    ensures Cleaned(raw) == Strip(t)
  {
    var a, b := StripIs(t);
    assert forall x :: 0 <= x < |Strip(t)| ==> Strip(t)[x] == t[a + x] && t[a + x] in t;
    NoTickTrim(Strip(t));
    StripTwice(t);
  }

  lemma NoObjectInside(t: string)
    requires NoObject(t)
    ensures NoObject(Strip(t))
  {
    var a, b := StripIs(t);
    assert forall x :: 0 <= x < |Strip(t)| ==> Strip(t)[x] == t[a + x];
  }

  /** An answer without an object, fenced or not, comes back as the plain text without outer blanks. */
  lemma PlainAnswerIsRaw<T>(t: string, parse: string -> Option<T>)
    requires '`' !in t && NoObject(t)
    ensures ParseResponse(t, parse) == Raw(Strip(t))
    ensures ParseResponse("```json" + t + "```", parse) == Raw(Strip(t))
    ensures !TagAt(t, 0) ==> ParseResponse("```" + t + "```", parse) == Raw(Strip(t))
  {
    NoObjectInside(t);
    BlockIs(Strip(t));
    NoTicksKept(t, 0, |t|);
    assert t[0..|t|] + "" == t;
    CleanedIs(t, t);
    FencesGo(t);
    CleanedIs("```json" + t + "```", t);
    if !TagAt(t, 0) {
      CleanedIs("```" + t + "```", t);
    }
  }

  lemma StrayTickStays(t: string)
    requires '`' !in t
    ensures Unfence(t + "`") == t + "`"
  {
    var s := t + "`";
    assert !FenceAt(s, |t|);
    forall i: nat | i < |s| ensures !FenceAt(s, i) {
      assert i < |t| ==> s[i] == t[i] && t[i] in t;
    }
    UnfenceKeeps(s, 0);
    assert s[0..] == s;
  }

  lemma StrayTickTrim(t: string)
    requires '`' !in t
    ensures Cleaned(t + "`") == Strip(t)
  {
    var u := TrimLeft(t, IsSpace);
    StrayTickStays(t);
    TrimLeftOf(t, "`", IsSpace);
    TrimLeftChars(t, IsSpace, '`');
    assert (u + "`")[..|u|] == u;
    NoTickTrim(u);
    var n := TrimLeftIs(t, IsSpace);
    assert TrimLeft(u, IsSpace) == u;
  }

  /** A single backtick left over at the end goes as well. */
  lemma StrayTickGoes<T>(t: string, parse: string -> Option<T>)
    requires '`' !in t && NoObject(t)
    ensures ParseResponse(t + "`", parse) == Raw(Strip(t))
  {
    StrayTickTrim(t);
    NoObjectInside(t);
    BlockIs(Strip(t));
  }

  lemma UnfencedBraced(j: string)
    requires Braced(j)
    ensures Braced(Unfence(j))
  {
    var n := |j| - 1;
    assert j == "{" + (j[1..n] + "}");
    UnfenceSplit("{", j[1..n] + "}");
    UnfenceSplit(j[1..n], "}");
    UnfenceOne('{');
    UnfenceOne('}');
  }

  lemma UnfenceOne(c: char)
    requires c != '`'
    ensures Unfence([c]) == [c]
  {
    assert After([c], 0) == 1;
    assert UnfenceFrom([c], 1) == "";
  }
}
