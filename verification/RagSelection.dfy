/** build_rag_schema_context: which tables of a schema reach the prompt, and in what order. */
module RagSelection {
  import opened Text

  const MAX_TABLES: nat := 8
  const NAME_POINTS: nat := 10
  const COLUMN_POINTS: nat := 2

  /** One entry of the schema dict; a missing "columns" key reads as no columns. */
  datatype Table = Table(name: string, columns: seq<string>)

  /** A (score, table_name) pair of the list `relevant`. */
  datatype Entry = Entry(score: nat, name: string)

  // ---------------------------------------------------------------- what a match is

  /** Python's `w in s`. */
  predicate Contains(s: string, w: string) {
    exists i :: 0 <= i <= |s| - |w| && OccursAt(s, w, i)
  }

  /** `word.lower() in question.lower()`. */
  predicate Mentions(question: string, word: string) {
    Contains(Fold(question), Fold(word))
  }

  function ColumnPoints(columns: seq<string>, question: string, n: nat): (r: nat)
    requires n <= |columns|
    ensures r > 0 <==> exists i :: 0 <= i < n && Mentions(question, columns[i])
    ensures r <= COLUMN_POINTS * n
  {
    if n == 0 then 0
    else ColumnPoints(columns, question, n - 1) + if Mentions(question, columns[n - 1]) then COLUMN_POINTS else 0
  }

  function Score(t: Table, question: string): (r: nat) {
    (if Mentions(question, t.name) then NAME_POINTS else 0) + ColumnPoints(t.columns, question, |t.columns|)
  }

  /** The question speaks of the table: by its name or by one of its columns. */
  ghost predicate Relevant(t: Table, question: string) {
    Mentions(question, t.name) || exists i :: 0 <= i < |t.columns| && Mentions(question, t.columns[i])
  }

  /** A table may be selected when it is relevant, and every table may when none is. */
  ghost predicate Candidate(schema: seq<Table>, question: string, i: nat)
    requires i < |schema|
  {
    Relevant(schema[i], question) || forall j :: 0 <= j < |schema| ==> !Relevant(schema[j], question)
  }

  lemma ScoreIsRelevance(t: Table, question: string)
    ensures Score(t, question) > 0 <==> Relevant(t, question)
  {
  }

  /** The word stands in the question at i, in any case. */
  predicate MentionedAt(question: string, word: string, i: int) {
    0 <= i && i + |word| <= |question| && SameFold(question[i..i + |word|], word)
  }

  ghost predicate Mentioned(question: string, word: string) {
    exists i :: MentionedAt(question, word, i)
  }

  lemma MentionsIs(question: string, word: string)
    ensures Mentions(question, word) <==> Mentioned(question, word)
  {
    forall i: nat ensures OccursAt(Fold(question), Fold(word), i) <==> MentionedAt(question, word, i) {
      if OccursAt(Fold(question), Fold(word), i) {
        forall k | 0 <= k < |word| ensures FoldChar(question[i..i + |word|][k]) == FoldChar(word[k]) {
          assert Fold(question)[i + k] == Fold(word)[k];
        }
      }
      if MentionedAt(question, word, i) {
        forall k | 0 <= k < |word| ensures Fold(question)[i + k] == Fold(word)[k] {
          assert question[i..i + |word|][k] == question[i + k];
        }
      }
    }
    if Mentions(question, word) {
      var i :| 0 <= i <= |question| - |word| && OccursAt(Fold(question), Fold(word), i);
      assert MentionedAt(question, word, i);
    }
    if i :| MentionedAt(question, word, i) {
      assert OccursAt(Fold(question), Fold(word), i);
    }
  }

  /** The columns among the first n that the question mentions, by position. */
  ghost function MentionedColumns(columns: seq<string>, question: string, n: nat): set<nat>
    requires n <= |columns|
  {
    set i | 0 <= i < n && Mentioned(question, columns[i])
  }

  lemma OneMoreColumn(columns: seq<string>, question: string, n: nat)
    requires n < |columns|
    ensures |MentionedColumns(columns, question, n + 1)| ==
        |MentionedColumns(columns, question, n)| + if Mentioned(question, columns[n]) then 1 else 0
  {
    var before := MentionedColumns(columns, question, n);
    assert MentionedColumns(columns, question, n + 1) ==
        if Mentioned(question, columns[n]) then before + {n} else before;
  }

  lemma {:induction false} ColumnPointsAre(columns: seq<string>, question: string, n: nat)
    requires n <= |columns|
    ensures ColumnPoints(columns, question, n) == 2 * |MentionedColumns(columns, question, n)|
  {
    if n == 0 {
      assert MentionedColumns(columns, question, 0) == {};
    } else {
      ColumnPointsAre(columns, question, n - 1);
      MentionsIs(question, columns[n - 1]);
      OneMoreColumn(columns, question, n - 1);
    }
  }

  /** Ten points for the name and two for every column, by position, that the question mentions in any case. */
  lemma ScoreIs(t: Table, question: string)
    ensures Score(t, question) ==
      (if Mentioned(question, t.name) then 10 else 0) + 2 * |MentionedColumns(t.columns, question, |t.columns|)|
  {
    MentionsIs(question, t.name);
    ColumnPointsAre(t.columns, question, |t.columns|);
  }

  lemma MentionsBlind(question: string, other: string, word: string)
    requires SameFold(question, other)
    ensures Mentions(question, word) == Mentions(other, word)
  {
    SameFoldIsFold(question, other);
  }

  lemma {:induction false} ColumnsBlind(columns: seq<string>, question: string, other: string, n: nat)
    requires SameFold(question, other) && n <= |columns|
    ensures ColumnPoints(columns, question, n) == ColumnPoints(columns, other, n)
  {
    if n == 0 {
    } else {
      ColumnsBlind(columns, question, other, n - 1);
      MentionsBlind(question, other, columns[n - 1]);
    }
  }

  lemma ScoreBlind(t: Table, question: string, other: string)
    requires SameFold(question, other)
    ensures Score(t, question) == Score(t, other) && (Relevant(t, question) <==> Relevant(t, other))
  {
    MentionsBlind(question, other, t.name);
    ColumnsBlind(t.columns, question, other, |t.columns|);
    ScoreIsRelevance(t, question);
    ScoreIsRelevance(t, other);
  }

  // ---------------------------------------------------------------- which selections are right

  /** Table i is listed before table j: more points, or as many and earlier in the schema. */
  ghost predicate Ahead(schema: seq<Table>, question: string, i: nat, j: nat)
    requires i < |schema| && j < |schema|
  {
    var a, b := Score(schema[i], question), Score(schema[j], question);
    a > b || (a == b && i < j)
  }

  ghost predicate Listed(schema: seq<Table>, question: string, picks: seq<nat>) {
    && (forall k :: 0 <= k < |picks| ==> picks[k] < |schema| && Candidate(schema, question, picks[k]))
    && forall a, b :: 0 <= a < b < |picks| ==> Ahead(schema, question, picks[a], picks[b])
  }

  /** The first MAX_TABLES candidates in that order: a candidate left out comes after all of a full list. */
  ghost predicate Best(schema: seq<Table>, question: string, picks: seq<nat>) {
    && |picks| <= MAX_TABLES
    && Listed(schema, question, picks)
    && forall j :: 0 <= j < |schema| && Candidate(schema, question, j) && j !in picks ==>
         |picks| == MAX_TABLES && forall k :: 0 <= k < |picks| ==> Ahead(schema, question, picks[k], j)
  }

  lemma {:induction false} BestAgreeUpTo(schema: seq<Table>, question: string, p: seq<nat>, q: seq<nat>, n: nat)
    requires Best(schema, question, p) && Best(schema, question, q) && n <= |p| && n <= |q|
    ensures p[..n] == q[..n]
  {
    if n == 0 {
    } else {
      var k := n - 1;
      BestAgreeUpTo(schema, question, p, q, k);
      forall i | 0 <= i < k ensures p[i] == q[i] {
        assert p[..k][i] == q[..k][i];
      }
      assert p[k] == q[k];
      assert p[..n] == p[..k] + [p[k]] && q[..n] == q[..k] + [q[k]];
    }
  }

  ghost predicate Named(schema: seq<Table>, picks: seq<nat>, names: seq<string>) {
    |names| == |picks| && forall k :: 0 <= k < |picks| ==> picks[k] < |schema| && names[k] == schema[picks[k]].name
  }

  /** The names are those of the best candidates, best first. */
  ghost predicate IsSelection(schema: seq<Table>, question: string, names: seq<string>) {
    exists picks: seq<nat> :: Best(schema, question, picks) && Named(schema, picks, names)
  }

  /** Scores, cap and tie-breaks leave exactly one right answer. */
  lemma SelectionIsUnique(schema: seq<Table>, question: string, names: seq<string>, others: seq<string>)
    requires IsSelection(schema, question, names) && IsSelection(schema, question, others)
    ensures names == others
  {
    var p: seq<nat> :| Best(schema, question, p) && Named(schema, p, names);
    var q: seq<nat> :| Best(schema, question, q) && Named(schema, q, others);
    BestIsUnique(schema, question, p, q);
  }

  lemma CandidateBlind(schema: seq<Table>, question: string, other: string, i: nat)
    requires SameFold(question, other) && i < |schema|
    ensures Candidate(schema, question, i) == Candidate(schema, other, i)
  {
    forall j | 0 <= j < |schema| ensures Relevant(schema[j], question) <==> Relevant(schema[j], other) {
      ScoreBlind(schema[j], question, other);
    }
  }

  lemma AheadBlind(schema: seq<Table>, question: string, other: string, i: nat, j: nat)
    requires SameFold(question, other) && i < |schema| && j < |schema|
    ensures Ahead(schema, question, i, j) == Ahead(schema, other, i, j)
  {
    ScoreBlind(schema[i], question, other);
    ScoreBlind(schema[j], question, other);
  }

  lemma BestBlind(schema: seq<Table>, question: string, other: string, picks: seq<nat>)
    requires SameFold(question, other) && Best(schema, question, picks)
    ensures Best(schema, other, picks)
  {
    forall k | 0 <= k < |picks| ensures picks[k] < |schema| && Candidate(schema, other, picks[k]) {
      CandidateBlind(schema, question, other, picks[k]);
    }
    forall a, b | 0 <= a < b < |picks| ensures Ahead(schema, other, picks[a], picks[b]) {
      AheadBlind(schema, question, other, picks[a], picks[b]);
    }
    forall j | 0 <= j < |schema| && Candidate(schema, other, j) && j !in picks
      ensures |picks| == MAX_TABLES && forall k :: 0 <= k < |picks| ==> Ahead(schema, other, picks[k], j)
    {
      CandidateBlind(schema, question, other, j);
      forall k | 0 <= k < |picks| ensures Ahead(schema, other, picks[k], j) {
        AheadBlind(schema, question, other, picks[k], j);
      }
    }
  }

  /** Questions that differ in case only select the same tables. */
  lemma SelectionIgnoresCase(schema: seq<Table>, question: string, other: string, names: seq<string>)
    requires SameFold(question, other)
    ensures IsSelection(schema, question, names) <==> IsSelection(schema, other, names)
  {
    if picks: seq<nat> :| Best(schema, question, picks) && Named(schema, picks, names) {
      BestBlind(schema, question, other, picks);
    }
    if picks: seq<nat> :| Best(schema, other, picks) && Named(schema, picks, names) {
      BestBlind(schema, other, question, picks);
    }
  }

  lemma BestIsUnique(schema: seq<Table>, question: string, p: seq<nat>, q: seq<nat>)
    requires Best(schema, question, p) && Best(schema, question, q)
    ensures p == q
  {
    NotShorter(schema, question, p, q);
    NotShorter(schema, question, q, p);
    BestAgreeUpTo(schema, question, p, q, |p|);
    assert p[..|p|] == p && q[..|q|] == q;
  }

  lemma NotShorter(schema: seq<Table>, question: string, p: seq<nat>, q: seq<nat>)
    requires Best(schema, question, p) && Best(schema, question, q)
    ensures |p| >= |q|
  {
    if |p| < |q| {
      BestAgreeUpTo(schema, question, p, q, |p|);
      var j := q[|p|];
      forall m | 0 <= m < |p| ensures p[m] != j {
        assert p[..|p|][m] == q[..|p|][m];
      }
    }
  }

  /** What a reader of the prompt is promised, spelled out. */
  lemma SelectionPromises(schema: seq<Table>, question: string, picks: seq<nat>)
    requires Best(schema, question, picks)
    ensures NoRepeats(picks)
    ensures forall a, b :: 0 <= a < b < |picks| ==>
              Score(schema[picks[a]], question) >= Score(schema[picks[b]], question)
    ensures forall j, k :: 0 <= j < |schema| && Candidate(schema, question, j) && j !in picks && 0 <= k < |picks| ==>
              Score(schema[j], question) <= Score(schema[picks[k]], question)
    ensures (exists k :: 0 <= k < |picks| && !Relevant(schema[picks[k]], question)) ==>
              forall j :: 0 <= j < |schema| ==> !Relevant(schema[j], question)
    ensures var all := set i | 0 <= i < |schema| && Candidate(schema, question, i);
            |picks| == if |all| < 8 then |all| else 8
  {
    forall a, b | 0 <= a < b < |picks| ensures Score(schema[picks[a]], question) >= Score(schema[picks[b]], question) {
      assert Ahead(schema, question, picks[a], picks[b]);
    }
    if k :| 0 <= k < |picks| && !Relevant(schema[picks[k]], question) {
      assert Candidate(schema, question, picks[k]);
    }
    var all := set i | 0 <= i < |schema| && Candidate(schema, question, i);
    var chosen := Elements(picks);
    DistinctCount(picks);
    assert chosen <= all;
    SubsetCount(chosen, all);
    if chosen != all {
      var j :| j in all && j !in chosen;
      assert |picks| == MAX_TABLES;
    }
  }

  /** When the question mentions nothing, the first eight tables are selected as they come. */
  lemma NothingMentioned(schema: seq<Table>, question: string, names: seq<string>)
    requires forall i :: 0 <= i < |schema| ==>
      !Mentioned(question, schema[i].name)
      && forall k :: 0 <= k < |schema[i].columns| ==> !Mentioned(question, schema[i].columns[k])
    requires IsSelection(schema, question, names)
    ensures |names| == if |schema| < 8 then |schema| else 8
    ensures forall i :: 0 <= i < |names| ==> names[i] == schema[i].name
  {
    forall i | 0 <= i < |schema| ensures !Relevant(schema[i], question) && Score(schema[i], question) == 0 {
      MentionsIs(question, schema[i].name);
      forall k | 0 <= k < |schema[i].columns| ensures !Mentions(question, schema[i].columns[k]) {
        MentionsIs(question, schema[i].columns[k]);
      }
      ScoreIsRelevance(schema[i], question);
    }
    var first: seq<nat> := seq(if |schema| < MAX_TABLES then |schema| else MAX_TABLES, k => k);
    FirstAreBest(schema, question, first);
    var picks: seq<nat> :| Best(schema, question, picks) && Named(schema, picks, names);
    BestIsUnique(schema, question, picks, first);
  }

  lemma FirstAreBest(schema: seq<Table>, question: string, first: seq<nat>)
    requires forall i :: 0 <= i < |schema| ==> !Relevant(schema[i], question) && Score(schema[i], question) == 0
    requires |first| == if |schema| < MAX_TABLES then |schema| else MAX_TABLES
    requires forall k :: 0 <= k < |first| ==> first[k] == k
    ensures Best(schema, question, first)
  {
    forall j | 0 <= j < |first| ensures j in first {
      assert first[j] == j;
    }
  }

  function Elements(s: seq<nat>): (r: set<nat>)
    ensures forall x :: x in r <==> x in s
  {
    set x | x in s
  }

  lemma {:induction false} DistinctCount(s: seq<nat>)
    requires NoRepeats(s)
    ensures |Elements(s)| == |s|
  {
    if s == [] {
      assert Elements(s) == {};
    } else {
      var n := |s| - 1;
      DistinctCount(s[..n]);
      assert s == s[..n] + [s[n]] && s[n] !in s[..n];
      assert Elements(s) == Elements(s[..n]) + {s[n]};
    }
  }

  lemma {:induction false} SubsetCount(a: set<nat>, b: set<nat>)
    requires a <= b
    ensures |a| <= |b|
  {
    if a == {} {
    } else {
      var x :| x in a;
      SubsetCount(a - {x}, b - {x});
    }
  }

  // ---------------------------------------------------------------- list.sort

  /** Where a stable sort by descending score puts entry i behind the places p. */
  function InsertPlace(c: seq<Entry>, p: seq<nat>, i: nat): (r: seq<nat>)
    requires i < |c| && forall k :: 0 <= k < |p| ==> p[k] < |c|
    ensures |r| == |p| + 1
    ensures forall k :: 0 <= k < |r| ==> r[k] < |c|
  {
    if p == [] || c[p[|p| - 1]].score >= c[i].score then p + [i]
    else InsertPlace(c, p[..|p| - 1], i) + [p[|p| - 1]]
  }

  /** The positions of the first n entries in the order list.sort(key=-score) leaves them. */
  function Order(c: seq<Entry>, n: nat): (p: seq<nat>)
    requires n <= |c|
    ensures |p| == n
    ensures forall k :: 0 <= k < |p| ==> p[k] < |c|
  {
    if n == 0 then [] else InsertPlace(c, Order(c, n - 1), n - 1)
  }

  function SortByScore(c: seq<Entry>): (r: seq<Entry>)
    ensures |r| == |c|
    ensures forall k :: 0 <= k < |r| ==> r[k] == c[Order(c, |c|)[k]]
  {
    var p := Order(c, |c|);
    seq(|c|, k requires 0 <= k < |c| => c[p[k]])
  }

  lemma {:induction false} InsertMembers(c: seq<Entry>, p: seq<nat>, i: nat, x: nat)
    requires i < |c| && forall k :: 0 <= k < |p| ==> p[k] < |c|
    ensures x in InsertPlace(c, p, i) <==> x in p || x == i
  {
    if p == [] {
    } else {
      var n := |p| - 1;
      InsertMembers(c, p[..n], i, x);
      assert x in p <==> x in p[..n] || x == p[n];
    }
  }

  /** Every entry keeps a place. */
  lemma {:induction false} OrderMembers(c: seq<Entry>, n: nat, x: nat)
    requires n <= |c|
    ensures x in Order(c, n) <==> x < n
  {
    if n == 0 {
    } else {
      OrderMembers(c, n - 1, x);
      InsertMembers(c, Order(c, n - 1), n - 1, x);
    }
  }

  predicate Before(c: seq<Entry>, i: nat, j: nat)
    requires i < |c| && j < |c|
  {
    c[i].score > c[j].score || (c[i].score == c[j].score && i < j)
  }

  ghost predicate InOrder(c: seq<Entry>, p: seq<nat>) {
    && (forall k :: 0 <= k < |p| ==> p[k] < |c|)
    && forall a, b :: 0 <= a < b < |p| ==> Before(c, p[a], p[b])
  }

  lemma {:induction false} InsertKeepsOrder(c: seq<Entry>, p: seq<nat>, i: nat)
    requires i < |c| && InOrder(c, p) && forall k :: 0 <= k < |p| ==> p[k] < i
    ensures InOrder(c, InsertPlace(c, p, i))
  {
    var r := InsertPlace(c, p, i);
    if p == [] {
    } else {
      var n := |p| - 1;
      if c[p[n]].score >= c[i].score {
        forall a, b | 0 <= a < b < |r| ensures Before(c, r[a], r[b]) {
          assert a < n ==> Before(c, p[a], p[n]);
        }
      } else {
        InsertKeepsOrder(c, p[..n], i);
        var q := InsertPlace(c, p[..n], i);
        forall a, b | 0 <= a < b < |r| ensures Before(c, r[a], r[b]) {
          if b == n + 1 {
            assert r[a] == q[a] && q[a] in q;
            InsertMembers(c, p[..n], i, q[a]);
          }
        }
      }
    }
  }

  lemma OrderIsBelow(c: seq<Entry>, n: nat)
    requires n <= |c|
    ensures forall k :: 0 <= k < n ==> Order(c, n)[k] < n
  {
    forall k | 0 <= k < n ensures Order(c, n)[k] < n {
      assert Order(c, n)[k] in Order(c, n);
      OrderMembers(c, n, Order(c, n)[k]);
    }
  }

  /** Order is the stable order: by score, ties as they were. */
  lemma {:induction false} OrderIsStable(c: seq<Entry>, n: nat)
    requires n <= |c|
    ensures InOrder(c, Order(c, n))
  {
    if n == 0 {
    } else {
      OrderIsStable(c, n - 1);
      var p := Order(c, n - 1);
      OrderIsBelow(c, n - 1);
      InsertKeepsOrder(c, p, n - 1);
    }
  }

  // ---------------------------------------------------------------- the method

  /** The entries of `relevant` are those of the candidates, in schema order: at[k] is where entry k came from. */
  ghost predicate Gathered(schema: seq<Table>, question: string, relevant: seq<Entry>, at: seq<nat>, n: nat) {
    && |at| == |relevant| && n <= |schema|
    && (forall k :: 0 <= k < |at| ==> at[k] < n)
    && (forall a, b :: 0 <= a < b < |at| ==> at[a] < at[b])
    && (forall k :: 0 <= k < |at| ==>
         relevant[k] == Entry(Score(schema[at[k]], question), schema[at[k]].name))
  }

  ghost function Picked(c: seq<Entry>, at: seq<nat>): (picks: seq<nat>)
    requires |at| == |c|
    ensures |picks| == if |c| < MAX_TABLES then |c| else MAX_TABLES
    ensures forall k :: 0 <= k < |picks| ==> picks[k] == at[Order(c, |c|)[k]]
  {
    var p := Order(c, |c|);
    seq(if |c| < MAX_TABLES then |c| else MAX_TABLES,
      k requires 0 <= k < |c| => at[p[k]])
  }

  lemma PickedIsListed(schema: seq<Table>, question: string, c: seq<Entry>, at: seq<nat>)
    requires Gathered(schema, question, c, at, |schema|)
    requires forall k :: 0 <= k < |at| ==> Candidate(schema, question, at[k])
    ensures Listed(schema, question, Picked(c, at))
  {
    var p, picks := Order(c, |c|), Picked(c, at);
    OrderIsStable(c, |c|);
    forall k | 0 <= k < |picks| ensures picks[k] < |schema| && Candidate(schema, question, picks[k]) {
      assert picks[k] == at[p[k]];
    }
    forall a, b | 0 <= a < b < |picks| ensures Ahead(schema, question, picks[a], picks[b]) {
      assert Before(c, p[a], p[b]);
    }
  }

  lemma LeftOutIsBehind(schema: seq<Table>, question: string, c: seq<Entry>, at: seq<nat>, m: nat)
    requires Gathered(schema, question, c, at, |schema|)
    requires m < |c| && at[m] !in Picked(c, at) && Listed(schema, question, Picked(c, at))
    ensures var picks := Picked(c, at);
            |picks| == MAX_TABLES && forall k :: 0 <= k < |picks| ==> Ahead(schema, question, picks[k], at[m])
  {
    var p, picks := Order(c, |c|), Picked(c, at);
    OrderIsStable(c, |c|);
    OrderMembers(c, |c|, m);
    forall e | 0 <= e < |picks| ensures p[e] != m {
      assert picks[e] in picks;
    }
    var d :| 0 <= d < |p| && p[d] == m;
    forall k | 0 <= k < |picks| ensures Ahead(schema, question, picks[k], at[m]) {
      assert Before(c, p[k], p[d]);
    }
  }

  /** Sorting the gathered entries and cutting the list gives the one right selection. */
  lemma PickedIsBest(schema: seq<Table>, question: string, c: seq<Entry>, at: seq<nat>)
    requires Gathered(schema, question, c, at, |schema|)
    requires forall j :: 0 <= j < |schema| ==> (j in at <==> Candidate(schema, question, j))
    ensures Best(schema, question, Picked(c, at))
  {
    var picks := Picked(c, at);
    forall k | 0 <= k < |at| ensures Candidate(schema, question, at[k]) {
      assert at[k] in at;
    }
    PickedIsListed(schema, question, c, at);
    forall j | 0 <= j < |schema| && Candidate(schema, question, j) && j !in picks
      ensures |picks| == MAX_TABLES && forall k :: 0 <= k < |picks| ==> Ahead(schema, question, picks[k], j)
    {
      var m :| 0 <= m < |at| && at[m] == j;
      LeftOutIsBehind(schema, question, c, at, m);
    }
  }

  /** The names of the first MAX_TABLES entries. */
  function Names(sorted: seq<Entry>): (r: seq<string>)
    ensures |r| == if |sorted| < MAX_TABLES then |sorted| else MAX_TABLES
    ensures forall k :: 0 <= k < |r| ==> r[k] == sorted[k].name
  {
    seq(if |sorted| < MAX_TABLES then |sorted| else MAX_TABLES, k requires 0 <= k < |sorted| => sorted[k].name)
  }

  method ScoreTable(t: Table, question: string) returns (score: nat)
    ensures score == Score(t, question)
  {
    score := 0;
    if Mentions(question, t.name) {
      score := score + NAME_POINTS;
    }
    var base := score;
    for i := 0 to |t.columns|
      invariant score == base + ColumnPoints(t.columns, question, i)
    {
      if Mentions(question, t.columns[i]) {
        score := score + COLUMN_POINTS;
      }
    }
  }

  /** First loop: a positive score puts (score, table_name) on the list. */
  method Gather(schema: seq<Table>, question: string) returns (relevant: seq<Entry>, ghost at: seq<nat>)
    ensures Gathered(schema, question, relevant, at, |schema|)
    ensures forall j :: 0 <= j < |schema| ==> (j in at <==> Score(schema[j], question) > 0)
  {
    relevant, at := [], [];
    for i := 0 to |schema|
      invariant Gathered(schema, question, relevant, at, i)
      invariant forall j :: 0 <= j < i ==> (j in at <==> Score(schema[j], question) > 0)
    {
      var score := ScoreTable(schema[i], question);
      if score > 0 {
        relevant := relevant + [Entry(score, schema[i].name)];
        at := at + [i];
      }
    }
  }

  lemma NoneScores(schema: seq<Table>, question: string, at: seq<nat>)
    requires forall j :: 0 <= j < |schema| ==> Score(schema[j], question) == 0
    requires |at| == |schema| && forall j :: 0 <= j < |at| ==> at[j] == j
    ensures forall j :: 0 <= j < |schema| ==> j in at && Candidate(schema, question, j)
  {
    forall j | 0 <= j < |schema| ensures j in at && Candidate(schema, question, j) {
      assert at[j] == j;
    }
  }

  lemma SomeScore(schema: seq<Table>, question: string, at: seq<nat>)
    requires at != [] && forall k :: 0 <= k < |at| ==> at[k] < |schema|
    requires forall j :: 0 <= j < |schema| ==> (j in at <==> Score(schema[j], question) > 0)
    ensures forall j :: 0 <= j < |schema| ==> (j in at <==> Candidate(schema, question, j))
  {
    assert at[0] in at;
  }

  method SelectTables(schema: seq<Table>, question: string) returns (selected: seq<string>)
    ensures IsSelection(schema, question, selected)
  {
    ghost var at: seq<nat>;
    var relevant: seq<Entry>;
    relevant, at := Gather(schema, question);
    if relevant == [] {
      relevant := seq(|schema|, i requires 0 <= i < |schema| => Entry(0, schema[i].name));
      at := seq(|schema|, i => i);
      NoneScores(schema, question, at);
    } else {
      SomeScore(schema, question, at);
    }
    PickedIsBest(schema, question, relevant, at);
    selected := Names(SortByScore(relevant));
    assert Named(schema, Picked(relevant, at), selected);
  }
}
