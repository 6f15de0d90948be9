/** Characters and strings as the service sees them: ASCII classes, case folding and the two Python trims. */
module Text {

  ghost predicate NoRepeats<T>(s: seq<T>) {
    forall x, y :: 0 <= x < y < |s| ==> s[x] != s[y]
  }

  lemma NoRepeatsConcat<T>(a: seq<T>, b: seq<T>)
    requires NoRepeats(a) && NoRepeats(b) && forall c :: c in a ==> c !in b
    ensures NoRepeats(a + b)
  {
    forall x, y | 0 <= x < y < |a + b| ensures (a + b)[x] != (a + b)[y] {
      if x < |a| <= y {
        assert a[x] in a && b[y - |a|] in b;
      }
    }
  }

  /** What Python's re module and str.lower do to an ASCII letter. */
  function FoldChar(c: char): (f: char)
    ensures FoldChar(c) == c || 'A' <= c <= 'Z'
  {
    if 'A' <= c <= 'Z' then (c as int + 32) as char else c
  }

  function Fold(s: string): (f: string)
    ensures |f| == |s|
    ensures forall i :: 0 <= i < |s| ==> f[i] == FoldChar(s[i])
  {
    seq(|s|, i requires 0 <= i < |s| => FoldChar(s[i]))
  }

  /** Equal up to case. */
  predicate SameFold(s: string, t: string) {
    |s| == |t| && forall i :: 0 <= i < |s| ==> FoldChar(s[i]) == FoldChar(t[i])
  }

  lemma SameFoldIsFold(s: string, t: string)
    ensures SameFold(s, t) <==> Fold(s) == Fold(t)
  {
    if Fold(s) == Fold(t) {
      assert |s| == |Fold(s)| == |t|;
      forall i | 0 <= i < |s| ensures FoldChar(s[i]) == FoldChar(t[i]) {
        assert Fold(s)[i] == Fold(t)[i];
      }
    }
  }

  predicate IsDigit(c: char) {
    '0' <= c <= '9'
  }

  /** The ASCII part of \w. */
  predicate IsWord(c: char) {
    IsDigit(c) || 'a' <= FoldChar(c) <= 'z' || c == '_'
  }

  predicate IsIdentStart(c: char) {
    IsWord(c) && !IsDigit(c)
  }

  /** The ASCII part of \s and of str.isspace: tab to carriage return, the four separators, blank. */
  predicate IsSpace(c: char) {
    9 as char <= c <= 13 as char || 28 as char <= c <= 31 as char || c == ' '
  }

  /** s.lstrip over the characters that satisfy p. */
  function TrimLeft(s: string, p: char -> bool): (r: string) {
    if s != "" && p(s[0]) then TrimLeft(s[1..], p) else s
  }

  /** s.rstrip over the characters that satisfy p. */
  function TrimRight(s: string, p: char -> bool): (r: string) {
    if s != "" && p(s[|s| - 1]) then TrimRight(s[..|s| - 1], p) else s
  }

  function Trim(s: string, p: char -> bool): (r: string) {
    TrimRight(TrimLeft(s, p), p)
  }

  function Strip(s: string): (r: string) {
    Trim(s, IsSpace)
  }

  /** All characters between two places satisfy p. */
  predicate Between(s: string, i: int, j: int, p: char -> bool) {
    forall x :: i <= x < j && 0 <= x < |s| ==> p(s[x])
  }

  /** lstrip takes off the longest such prefix. */
  lemma {:induction false} TrimLeftIs(s: string, p: char -> bool) returns (n: nat)
    ensures n <= |s| && TrimLeft(s, p) == s[n..] && Between(s, 0, n, p) && (n < |s| ==> !p(s[n]))
    decreases s
  {
    if s != "" && p(s[0]) {
      var m := TrimLeftIs(s[1..], p);
      n := m + 1;
      forall x | 0 <= x < n ensures p(s[x]) {
        assert x > 0 ==> s[x] == s[1..][x - 1];
      }
      assert s[1..][m..] == s[n..];
    } else {
      n := 0;
      assert s[0..] == s;
    }
  }

  /** rstrip takes off the longest such suffix. */
  lemma {:induction false} TrimRightIs(s: string, p: char -> bool) returns (n: nat)
    ensures n <= |s| && TrimRight(s, p) == s[..n] && Between(s, n, |s|, p) && (n > 0 ==> !p(s[n - 1]))
    decreases s
  {
    var last := |s| - 1;
    if s != "" && p(s[last]) {
      n := TrimRightIs(s[..last], p);
      forall x | n <= x < |s| ensures p(s[x]) {
        assert x < last ==> s[x] == s[..last][x];
      }
      assert s[..last][..n] == s[..n];
    } else {
      n := |s|;
      assert s[..n] == s;
    }
  }

  /** strip takes off both: what is left starts and ends with other characters. */
  lemma StripIs(s: string) returns (a: nat, b: nat)
    ensures a <= b <= |s| && Strip(s) == s[a..b] && Between(s, 0, a, IsSpace) && Between(s, b, |s|, IsSpace)
    ensures a < b ==> !IsSpace(s[a]) && !IsSpace(s[b - 1])
  {
    a := TrimLeftIs(s, IsSpace);
    var t := s[a..];
    var n := TrimRightIs(t, IsSpace);
    b := a + n;
    assert t[..n] == s[a..b];
    forall x | b <= x < |s| ensures IsSpace(s[x]) {
      assert s[x] == t[x - a];
    }
    assert n > 0 ==> s[b - 1] == t[n - 1] && s[a] == t[0];
  }

  lemma StripTwice(s: string)
    ensures Strip(Strip(s)) == Strip(s)
  {
    var a, b := StripIs(s);
    var t := Strip(s);
    assert t != "" ==> t[0] == s[a] && t[|t| - 1] == s[b - 1];
  }

  /** The classes, character by character. */
  lemma ClassesAre(c: char)
    ensures IsDigit(c) <==> c in "0123456789"
    ensures IsWord(c) <==> 'a' <= c <= 'z' || 'A' <= c <= 'Z' || '0' <= c <= '9' || c == '_'
    ensures IsIdentStart(c) <==> 'a' <= c <= 'z' || 'A' <= c <= 'Z' || c == '_'
    ensures IsSpace(c) <==> c in {'\t', '\n', '\U{0B}', '\U{0C}', '\r', '\U{1C}', '\U{1D}', '\U{1E}', '\U{1F}', ' '}
  {
  }

  lemma {:induction false} SameTrimLeft(s: string, t: string, p: char -> bool)
    requires SameFold(s, t) && forall c, d :: FoldChar(c) == FoldChar(d) ==> p(c) == p(d)
    ensures SameFold(TrimLeft(s, p), TrimLeft(t, p))
  {
    if s == "" {
    } else {
      assert p(s[0]) == p(t[0]);
      SameTrimLeft(s[1..], t[1..], p);
    }
  }

  lemma {:induction false} SameTrimRight(s: string, t: string, p: char -> bool)
    requires SameFold(s, t) && forall c, d :: FoldChar(c) == FoldChar(d) ==> p(c) == p(d)
    ensures SameFold(TrimRight(s, p), TrimRight(t, p))
  {
    if s == "" {
    } else {
      var n := |s| - 1;
      assert p(s[n]) == p(t[n]);
      SameTrimRight(s[..n], t[..n], p);
    }
  }

  /** w stands in s at i. */
  predicate OccursAt(s: string, w: string, i: nat) {
    i + |w| <= |s| && forall k :: 0 <= k < |w| ==> s[i + k] == w[k]
  }

  predicate NoColon(s: string) {
    ':' !in s
  }

  /** A colon ends an id that holds none, so the pair can be read back. */
  lemma ColonInjective(s: string, a: string, t: string, b: string)
    requires NoColon(s) && NoColon(t) && s + ":" + a == t + ":" + b
    ensures s == t && a == b
  {
    var k := s + ":" + a;
    assert k[|s|] == ':' && k[|t|] == ':';
    assert forall i :: 0 <= i < |s| ==> k[i] == s[i] && k[i] in s;
    assert forall i :: 0 <= i < |t| ==> k[i] == t[i] && k[i] in t;
    assert |s| == |t|;
    assert s == k[..|s|] && t == k[..|t|];
    assert a == k[|s| + 1..] && b == k[|t| + 1..];
  }
}
