/** Python's str.replace: what it does to a text put together from pieces. */
module StrReplace {
  import opened Text

  predicate StartsWith(s: string, w: string) {
    OccursAt(s, w, 0)
  }

  ghost predicate Free(s: string, w: string) {
    forall i :: 0 <= i < |s| ==> !OccursAt(s, w, i)
  }

  ghost predicate OnlyAtStart(s: string, w: string) {
    forall i :: 0 < i < |s| ==> !OccursAt(s, w, i)
  }

  /** s.replace(w, r) from position i on: leftmost first, never overlapping. */
  function ReplaceFrom(s: string, w: string, r: string, i: nat): (t: string)
    requires w != "" && i <= |s|
    decreases |s| - i
  {
    if i == |s| then ""
    else if OccursAt(s, w, i) then r + ReplaceFrom(s, w, r, i + |w|)
    else [s[i]] + ReplaceFrom(s, w, r, i + 1)
  }

  function Replace(s: string, w: string, r: string): (t: string)
    requires w != ""
  {
    ReplaceFrom(s, w, r, 0)
  }

  /** s.replace(w, r, 1). */
  function ReplaceOnceFrom(s: string, w: string, r: string, i: nat): (t: string)
    requires w != "" && i <= |s|
    decreases |s| - i
  {
    if i == |s| then ""
    else if OccursAt(s, w, i) then r + s[i + |w|..]
    else [s[i]] + ReplaceOnceFrom(s, w, r, i + 1)
  }

  /** No w runs from a into b: whatever b starts with, w could only start with it. */
  predicate Apart(b: string, w: string)
    requires w != ""
  {
    b == "" || b[0] !in w[1..]
  }

  lemma Misfit(s: string, w: string, i: nat, k: nat)
    requires k < |w| && (i + k < |s| ==> s[i + k] != w[k])
    ensures !OccursAt(s, w, i)
  {
  }

  lemma LacksChar(s: string, w: string, k: nat)
    requires k < |w| && w[k] !in s
    ensures Free(s, w)
  {
    forall i | 0 <= i < |s| ensures !OccursAt(s, w, i) {
      Misfit(s, w, i, k);
    }
  }

  lemma OccursRight(a: string, b: string, w: string, i: nat)
    ensures OccursAt(a + b, w, |a| + i) <==> OccursAt(b, w, i)
  {
    if OccursAt(a + b, w, |a| + i) {
      forall k | 0 <= k < |w| ensures b[i + k] == w[k] {
        assert (a + b)[|a| + i + k] == w[k];
      }
    }
  }

  lemma OccursLeft(a: string, b: string, w: string, i: nat)
    requires w != "" && i < |a| && Apart(b, w)
    ensures OccursAt(a + b, w, i) <==> OccursAt(a, w, i)
  {
    if i + |w| > |a| {
      var k := |a| - i;
      assert w[k] == w[1..][k - 1];
      Misfit(a + b, w, i, k);
    } else if OccursAt(a + b, w, i) {
      forall k | 0 <= k < |w| ensures a[i + k] == w[k] {
        assert (a + b)[i + k] == w[k];
      }
    }
  }

  lemma {:induction false} ReplaceRight(a: string, b: string, w: string, r: string, i: nat)
    requires w != "" && i <= |b|
    ensures ReplaceFrom(a + b, w, r, |a| + i) == ReplaceFrom(b, w, r, i)
    decreases |b| - i
  {
    if i == |b| {
    } else {
      OccursRight(a, b, w, i);
      if OccursAt(b, w, i) {
        ReplaceRight(a, b, w, r, i + |w|);
      } else {
        ReplaceRight(a, b, w, r, i + 1);
        assert (a + b)[|a| + i] == b[i];
      }
    }
  }

  lemma PrefixMoves(x: string, s: string, t: string, tail: string)
    requires s == t + tail
    ensures x + s == (x + t) + tail
  {
  }

  lemma {:induction false} CutFrom(a: string, b: string, w: string, r: string, i: nat)
    requires w != "" && i <= |a| && Apart(b, w)
    ensures ReplaceFrom(a + b, w, r, i) == ReplaceFrom(a, w, r, i) + Replace(b, w, r)
    decreases |a| - i
  {
    if i == |a| {
      ReplaceRight(a, b, w, r, 0);
    } else {
      OccursLeft(a, b, w, i);
      if OccursAt(a, w, i) {
        var next := i + |w|;
        CutFrom(a, b, w, r, next);
        PrefixMoves(r, ReplaceFrom(a + b, w, r, next), ReplaceFrom(a, w, r, next), Replace(b, w, r));
      } else {
        CutFrom(a, b, w, r, i + 1);
        PrefixMoves([a[i]], ReplaceFrom(a + b, w, r, i + 1), ReplaceFrom(a, w, r, i + 1), Replace(b, w, r));
      }
    }
  }

  /** Replacing in a text is replacing in its pieces, when the cut divides no occurrence. */
  lemma Cut(a: string, b: string, w: string, r: string)
    requires w != "" && Apart(b, w)
    ensures Replace(a + b, w, r) == Replace(a, w, r) + Replace(b, w, r)
  {
    CutFrom(a, b, w, r, 0);
  }

  lemma {:induction false} FreeFrom(s: string, w: string, r: string, i: nat)
    requires w != "" && i <= |s| && forall j :: i <= j < |s| ==> !OccursAt(s, w, j)
    ensures ReplaceFrom(s, w, r, i) == s[i..]
    decreases |s| - i
  {
    if i == |s| {
    } else {
      FreeFrom(s, w, r, i + 1);
    }
  }

  lemma FreeIsKept(s: string, w: string, r: string)
    requires w != "" && Free(s, w)
    ensures Replace(s, w, r) == s
  {
    FreeFrom(s, w, r, 0);
  }

  lemma FreeOfBoth(a: string, b: string, w: string)
    requires w != "" && Free(a, w) && Free(b, w) && Apart(b, w)
    ensures Free(a + b, w)
  {
    forall i | 0 <= i < |a + b| ensures !OccursAt(a + b, w, i) {
      if i < |a| {
        OccursLeft(a, b, w, i);
      } else {
        OccursRight(a, b, w, i - |a|);
      }
    }
  }

  /** An occurrence of x + y is one of x, and of y further on. */
  lemma OccursParts(s: string, x: string, y: string, i: nat)
    ensures OccursAt(s, x + y, i) ==> OccursAt(s, x, i) && OccursAt(s, y, i + |x|)
  {
    if OccursAt(s, x + y, i) {
      forall k | 0 <= k < |x| ensures s[i + k] == x[k] {
        assert s[i + k] == (x + y)[k];
      }
      forall k | 0 <= k < |y| ensures s[i + |x| + k] == y[k] {
        assert s[i + (|x| + k)] == (x + y)[|x| + k];
      }
    }
  }

  /** p with a leading w replaced by r. */
  function Relabel(p: string, w: string, r: string): (q: string) {
    if StartsWith(p, w) then r + p[|w|..] else p
  }

  lemma ReplaceIsRelabel(p: string, w: string, r: string)
    requires w != "" && OnlyAtStart(p, w)
    ensures Replace(p, w, r) == Relabel(p, w, r)
  {
    if StartsWith(p, w) {
      FreeFrom(p, w, r, |w|);
    } else {
      FreeFrom(p, w, r, 0);
    }
  }

  lemma {:induction false} ReplaceOnceAtStart(s: string, w: string, r: string)
    requires w != "" && StartsWith(s, w)
    ensures ReplaceOnceFrom(s, w, r, 0) == r + s[|w|..]
  {
  }

  lemma FreeOfLonger(s: string, x: string, y: string)
    requires Free(s, x)
    ensures Free(s, x + y)
  {
    forall i | 0 <= i < |s| ensures !OccursAt(s, x + y, i) {
      OccursParts(s, x, y, i);
    }
  }
}
