/** When a window of the rate limit ends, what a crash costs, and how many admissions one duration can hold. */
module RateLimitWindows {
  import opened RateLimit
  import opened Wrappers

  // ---------------------------------------------------------------- runs in pieces

  lemma {:induction false} RunAppend(c: Config, w: World, a: seq<Event>, b: seq<Event>)
    requires Legal(c, w, a) && Legal(c, Run(c, w, a), b)
    ensures Legal(c, w, a + b) && Run(c, w, a + b) == Run(c, Run(c, w, a), b)
    decreases |a|
  {
    if a == [] {
      assert a + b == b;
    } else {
      RunAppend(c, Step(c, w, a[0]), a[1..], b);
      assert (a + b)[1..] == a[1..] + b;
    }
  }

  predicate Leads(c: Config, u: World, es: seq<Event>, v: World) {
    Legal(c, u, es) && Run(c, u, es) == v
  }

  lemma OneEvent(c: Config, w: World, e: Event)
    requires Enabled(w, e)
    ensures Leads(c, w, [e], Step(c, w, e))
  {
    assert [e][1..] == [];
  }

  lemma Joined(c: Config, u: World, a: seq<Event>, v: World, b: seq<Event>, w: World)
    requires Leads(c, u, a, v) && Leads(c, v, b, w)
    ensures Leads(c, u, a + b, w)
  {
    RunAppend(c, u, a, b);
  }

  // ---------------------------------------------------------------- the end of a window

  /** The expire of the current window has run. */
  predicate Timed(w: World) {
    |w.starts| - 1 in w.expires
  }

  /** The request that opened the current window has its expire still before it. */
  predicate Pending(w: World) {
    w.opener in w.phases && w.phases[w.opener].WantsExpire?
  }

  /**
   * After any run a request opens a new window exactly when there is none yet, or when the expire of the
   * current one ran, and ran at least a duration ago.
   */
  lemma OpensIffExpired(c: Config, start: int, es: seq<Event>, id: nat, t: int)
    requires c.duration > 0 && Legal(c, Start(start), es)
    requires Enabled(Run(c, Start(start), es), Incr(id, t))
    ensures var w := Run(c, Start(start), es); var v := Step(c, w, Incr(id, t));
      |v.starts| > |w.starts| <==> (w.starts == [] || (Timed(w) && w.expires[|w.starts| - 1] + c.duration <= t))
  {
    RunKeepsInv(c, Start(start), es);
  }

  /** The opener crashed between its incr and its expire. */
  predicate Stuck(w: World) {
    w.starts != [] && !Timed(w) && !Pending(w)
  }

  lemma StepStaysStuck(c: Config, w: World, e: Event)
    requires c.duration > 0 && Inv(c, w) && Stuck(w) && Enabled(w, e)
    ensures Stuck(Step(c, w, e)) && Step(c, w, e).starts == w.starts
    ensures Step(c, w, e).key.Present? && Step(c, w, e).key.count >= w.key.count
  {
  }

  lemma {:induction false} RunStaysStuck(c: Config, w: World, es: seq<Event>)
    requires c.duration > 0 && Inv(c, w) && Stuck(w) && Legal(c, w, es)
    ensures Stuck(Run(c, w, es)) && Run(c, w, es).starts == w.starts
    decreases |es|
  {
    if es == [] {
    } else {
      StepKeepsInv(c, w, es[0]);
      StepStaysStuck(c, w, es[0]);
      RunStaysStuck(c, Step(c, w, es[0]), es[1..]);
    }
  }

  predicate Reopens(c: Config, w: World, es: seq<Event>) {
    Legal(c, w, es) && |Run(c, w, es).starts| > |w.starts|
  }

  /** The window can still be followed by another. */
  lemma Reopening(c: Config, w: World) returns (es: seq<Event>)
    requires c.duration > 0 && Inv(c, w) && w.starts != [] && !Stuck(w)
    ensures Reopens(c, w, es)
  {
    var id := Above(w.phases.Keys);
    assert id !in w.phases.Keys;
    if Timed(w) {
      var d := w.expires[|w.starts| - 1] + c.duration;
      var e := Incr(id, if w.now < d then d else w.now);
      es := [e];
      OneEvent(c, w, e);
      assert |Step(c, w, e).starts| > |w.starts|;
    } else {
      var d, e := Expire(w.opener, w.now), Incr(id, w.now + c.duration);
      var v := Step(c, w, d);
      es := [d] + [e];
      OneEvent(c, w, d);
      OneEvent(c, v, e);
      Joined(c, w, [d], v, [e], Step(c, v, e));
      assert |Step(c, v, e).starts| > |w.starts|;
    }
  }

  /**
   * What a crash costs: after any run, some continuation opens a new window exactly when the opener of the
   * current one has not crashed before its expire.
   */
  lemma ReopensIffNotStuck(c: Config, start: int, before: seq<Event>)
    requires c.duration > 0 && Legal(c, Start(start), before) && Run(c, Start(start), before).starts != []
    ensures var w := Run(c, Start(start), before); (exists es :: Reopens(c, w, es)) <==> !Stuck(w)
  {
    var w := Run(c, Start(start), before);
    RunKeepsInv(c, Start(start), before);
    if Stuck(w) {
      forall es | Legal(c, w, es) ensures !Reopens(c, w, es) {
        RunStaysStuck(c, w, es);
      }
    } else {
      var es := Reopening(c, w);
    }
  }

  /** The counts made from the n-th on are above the points. */
  ghost predicate Refusing(c: Config, w: World, n: nat) {
    && Stuck(w) && w.key.Present? && w.key.count >= c.points
    && forall i :: n <= i < |w.counts| ==> w.counts[i].value > c.points
  }

  lemma StepStaysRefusing(c: Config, w: World, e: Event, n: nat)
    requires c.duration > 0 && Inv(c, w) && Refusing(c, w, n) && Enabled(w, e) && n <= |w.counts|
    ensures Refusing(c, Step(c, w, e), n) && n <= |Step(c, w, e).counts|
  {
    StepStaysStuck(c, w, e);
  }

  lemma {:induction false} RunStaysRefusing(c: Config, w: World, es: seq<Event>, n: nat)
    requires c.duration > 0 && Inv(c, w) && Refusing(c, w, n) && Legal(c, w, es) && n <= |w.counts|
    ensures Refusing(c, Run(c, w, es), n) && Inv(c, Run(c, w, es))
    decreases |es|
  {
    if es == [] {
    } else {
      StepKeepsInv(c, w, es[0]);
      StepStaysRefusing(c, w, es[0], n);
      RunStaysRefusing(c, Step(c, w, es[0]), es[1..], n);
    }
  }

  /** Once the points of such a window are used, no later request is let through, however long it waits. */
  lemma CrashRefusesForGood(c: Config, start: int, before: seq<Event>, es: seq<Event>, i: nat)
    requires c.duration > 0 && Legal(c, Start(start), before)
    requires var w := Run(c, Start(start), before);
      && Stuck(w) && w.key.Present? && w.key.count >= c.points && Legal(c, w, es)
      && |w.counts| <= i < |Run(c, w, es).counts|
    ensures var v := Run(c, Run(c, Start(start), before), es); !Admitted(v, v.counts[i])
  {
    var w := Run(c, Start(start), before);
    RunKeepsInv(c, Start(start), before);
    RunStaysRefusing(c, w, es, |w.counts|);
    assert Honest(c, Run(c, w, es), Run(c, w, es).counts[i]);
  }

  // ---------------------------------------------------------------- the interval bound is met

  /** Requests are numbered as they come. */
  ghost predicate Tidy(w: World) {
    && (forall id :: id in w.phases ==> id < |w.counts|)
    && (forall i :: 0 <= i < |w.counts| ==> w.counts[i].id in w.phases)
  }

  /** A request at t adds its count, and is admitted. */
  ghost predicate Serves(w: World, v: World, t: int) {
    && Tidy(v) && v.now == t && |v.counts| == |w.counts| + 1 && v.counts[..|w.counts|] == w.counts
    && v.counts[|w.counts|].time == t && Admitted(v, v.counts[|w.counts|])
    && forall id :: id in w.phases ==> id in v.phases && v.phases[id] == w.phases[id]
  }

  function Within(t: int, from: int, to: int): nat {
    if from <= t < to then 1 else 0
  }

  lemma ServedIn(w: World, v: World, t: int, from: int, to: int, i: nat)
    requires Tidy(w) && Serves(w, v, t)
    ensures i in AdmittedIn(v, from, to) <==> i in AdmittedIn(w, from, to) || (i == |w.counts| && from <= t < to)
  {
    if i < |w.counts| {
      assert v.counts[..|w.counts|][i] == w.counts[i];
      assert w.counts[i].id in w.phases;
    }
  }

  lemma ServedCounts(w: World, v: World, t: int, from: int, to: int)
    requires Tidy(w) && Serves(w, v, t)
    ensures |AdmittedIn(v, from, to)| == |AdmittedIn(w, from, to)| + Within(t, from, to)
  {
    var before, added := AdmittedIn(w, from, to), if from <= t < to then {|w.counts|} else {};
    forall i: nat ensures i in AdmittedIn(v, from, to) <==> i in before + added {
      ServedIn(w, v, t, from, to, i);
    }
    assert AdmittedIn(v, from, to) == before + added;
  }

  /** The key counts k in a window that is open until d. */
  predicate Open(w: World, k: nat, d: int) {
    w.key == Present(k, Some(d))
  }

  /** One more request in an open window with points left. */
  lemma ServeOne(c: Config, w: World, k: nat, d: int, t: int) returns (es: seq<Event>, v: World)
    requires Tidy(w) && Open(w, k, d) && 1 <= k < c.points && w.now <= t < d
    ensures Leads(c, w, es, v) && Serves(w, v, t) && Open(v, k + 1, d)
  {
    var id := |w.counts|;
    var u := Step(c, w, Incr(id, t));
    v := Step(c, u, Ttl(id, t));
    es := [Incr(id, t)] + [Ttl(id, t)];
    OneEvent(c, w, Incr(id, t));
    OneEvent(c, u, Ttl(id, t));
    Joined(c, w, [Incr(id, t)], u, [Ttl(id, t)], v);
  }

  /** A request that finds no live key opens a window until a duration later. */
  lemma OpenOne(c: Config, w: World, t: int) returns (es: seq<Event>, v: World)
    requires c.duration > 0 && c.points >= 1 && Tidy(w) && w.now <= t && Live(w.key, t) == Absent
    ensures Leads(c, w, es, v) && Serves(w, v, t) && Open(v, 1, t + c.duration)
  {
    var id := |w.counts|;
    var u := Step(c, w, Incr(id, t));
    var x := Step(c, u, Expire(id, t));
    v := Step(c, x, Ttl(id, t));
    es := [Incr(id, t)] + [Expire(id, t)] + [Ttl(id, t)];
    OneEvent(c, w, Incr(id, t));
    OneEvent(c, u, Expire(id, t));
    OneEvent(c, x, Ttl(id, t));
    Joined(c, w, [Incr(id, t)], u, [Expire(id, t)], x);
    Joined(c, w, [Incr(id, t)] + [Expire(id, t)], x, [Ttl(id, t)], v);
  }

  /** n requests at one instant in an open window with n points left. */
  lemma {:induction false} Burst(c: Config, w: World, k: nat, d: int, n: nat, t: int, from: int, to: int)
      returns (es: seq<Event>, v: World)
    requires Tidy(w) && Open(w, k, d) && 1 <= k && k + n <= c.points && w.now <= t < d && from <= t < to
    ensures Leads(c, w, es, v) && Tidy(v) && Open(v, k + n, d) && v.now <= t
    ensures |AdmittedIn(v, from, to)| == |AdmittedIn(w, from, to)| + n
    decreases n
  {
    if n == 0 {
      es, v := [], w;
    } else {
      var a, u := ServeOne(c, w, k, d, t);
      ServedCounts(w, u, t, from, to);
      var b, x := Burst(c, u, k + 1, d, n - 1, t, from, to);
      Joined(c, w, a, u, b, x);
      es, v := a + b, x;
    }
  }

  predicate AdmitsWithin(c: Config, start: int, es: seq<Event>, from: int, k: nat, n: int) {
    Legal(c, Start(start), es) && |AdmittedIn(Run(c, Start(start), es), from, from + k * c.duration)| == n
  }

  /** Some run admits n requests within k durations. */
  ghost predicate Achieves(c: Config, k: nat, n: int) {
    exists start, es, from :: AdmitsWithin(c, start, es, from, k, n)
  }

  lemma Achieved(c: Config, start: int, es: seq<Event>, v: World, from: int, k: nat)
    requires Leads(c, Start(start), es, v)
    ensures Achieves(c, k, |AdmittedIn(v, from, from + k * c.duration)|)
  {
    assert AdmitsWithin(c, start, es, from, k, |AdmittedIn(v, from, from + k * c.duration)|);
  }

  /** A window opened at `begin`, when no key is live, and all its other points used at t. */
  lemma FullWindow(c: Config, w: World, begin: int, t: int, from: int, to: int) returns (es: seq<Event>, v: World)
    requires c.duration > 0 && c.points >= 1 && Tidy(w) && w.now <= begin <= t < begin + c.duration
    requires Live(w.key, begin) == Absent && from <= t < to
    ensures Leads(c, w, es, v) && Tidy(v) && v.now <= t && Open(v, c.points, begin + c.duration)
    ensures |AdmittedIn(v, from, to)| == |AdmittedIn(w, from, to)| + Within(begin, from, to) + c.points - 1
  {
    var a, u := OpenOne(c, w, begin);
    ServedCounts(w, u, begin, from, to);
    var b, x := Burst(c, u, 1, begin + c.duration, c.points - 1, t, from, to);
    Joined(c, w, a, u, b, x);
    es, v := a + b, x;
  }

  /** n windows that follow each other at once, all points of each used when it opens. */
  lemma {:induction false} FullWindows(c: Config, w: World, begin: int, n: nat, from: int, to: int)
      returns (es: seq<Event>, v: World)
    requires c.duration > 0 && c.points >= 1 && Tidy(w) && w.now <= begin && Live(w.key, begin) == Absent
    requires from <= begin && begin + n * c.duration < to + c.duration
    ensures Leads(c, w, es, v)
    ensures |AdmittedIn(v, from, to)| == |AdmittedIn(w, from, to)| + n * c.points
    decreases n
  {
    if n == 0 {
      es, v := [], w;
    } else {
      OneMoreTime(n - 1, c.duration);
      OneMoreTime(n - 1, c.points);
      TimesGrow(0, n - 1, c.duration);
      var a, u := FullWindow(c, w, begin, begin, from, to);
      var b, x := FullWindows(c, u, begin + c.duration, n - 1, from, to);
      Joined(c, w, a, u, b, x);
      es, v := a + b, x;
    }
  }

  /**
   * One request opens a window at 0; the rest of its points are used just before it ends, those of the next k
   * windows at once.
   */
  lemma TailAndWindows(c: Config, k: nat)
    requires c.duration >= 2 && c.points >= 1 && k >= 1
    ensures Achieves(c, k, (k + 1) * c.points - 1)
  {
    var d, w0 := c.duration, Start(0);
    var from, to := d - 1, d - 1 + k * d;
    TimesGrow(1, k, d);
    var a, w1 := FullWindow(c, w0, 0, d - 1, from, to);
    var b, w2 := FullWindows(c, w1, d, k, from, to);
    Joined(c, w0, a, w1, b, w2);
    assert AdmittedIn(w0, from, to) == {};
    OneMoreTime(k, c.points);
    Achieved(c, 0, a + b, w2, from, k);
  }

  lemma OnePointWindows(c: Config, k: nat)
    requires c.duration >= 1 && c.points == 1
    ensures Achieves(c, k, k)
  {
    var es, v := FullWindows(c, Start(0), 0, k, 0, k * c.duration);
    assert AdmittedIn(Start(0), 0, k * c.duration) == {};
    Achieved(c, 0, es, v, 0, k);
  }

  lemma NotInInstants(c: Config, start: int, es: seq<Event>, from: int, k: nat)
    requires c.duration == 1 && c.points >= 2 && k >= 1
    ensures !AdmitsWithin(c, start, es, from, k, (k + 1) * c.points - 1)
  {
    if Legal(c, Start(start), es) {
      RunKeepsInv(c, Start(start), es);
      IntervalAdmitsIn(c, Run(c, Start(start), es), from, k);
      OneMoreTime(k, c.points);
      TimesGrow(1, k, c.points);
    }
  }

  /**
   * For every number k of durations the bound of (k + 1) * points - 1 is met in every configuration but
   * those with several points in a duration of one time unit.
   */
  lemma IntervalBoundIsSharp(c: Config, k: nat)
    requires c.duration >= 1 && c.points >= 1 && k >= 1
    ensures Achieves(c, k, (k + 1) * c.points - 1) <==> c.duration >= 2 || c.points == 1
  {
    if c.duration >= 2 {
      TailAndWindows(c, k);
    } else if c.points == 1 {
      OnePointWindows(c, k);
    } else {
      var n := (k + 1) * c.points - 1;
      forall start, es, from ensures !AdmitsWithin(c, start, es, from, k, n) {
        NotInInstants(c, start, es, from, k);
      }
    }
  }
}
