/** The fixed-window rate limit of one key: incr, expire and ttl are separate Redis commands of interleaved requests. */
module RateLimit {
  import opened Wrappers

  /** The Redis key: absent, or a count with an optional deadline. */
  datatype Counter = Absent | Present(count: nat, deadline: Option<int>)

  datatype Config = Config(points: int, duration: int)

  /** What the commands see at a time: a key past its deadline is gone. */
  function Live(k: Counter, now: int): Counter {
    if k.Present? && k.deadline.Some? && k.deadline.value <= now then Absent else k
  }

  function Incremented(k: Counter, now: int): Counter {
    match Live(k, now)
    case Absent => Present(1, None)
    case Present(n, d) => Present(n + 1, d)
  }

  function Expiring(k: Counter, now: int, duration: int): Counter {
    match Live(k, now)
    case Absent => Absent
    case Present(n, _) => if duration > 0 then Present(n, Some(now + duration)) else Absent
  }

  function TimeToLive(k: Counter, now: int): int {
    match Live(k, now)
    case Absent => -2
    case Present(_, None) => -1
    case Present(_, Some(d)) => d - now
  }

  class RedisKey {
    var key: Counter

    constructor ()
      ensures key == Absent
    {
      key := Absent;
    }

    method Incr(now: int) returns (current: nat)
      modifies this
      ensures key == Incremented(old(key), now) && key.Present? && current == key.count
    {
      if key.Present? && key.deadline.Some? && key.deadline.value <= now {
        key := Absent;
      }
      if key.Absent? {
        key := Present(1, None);
      } else {
        key := Present(key.count + 1, key.deadline);
      }
      current := key.count;
    }

    method Expire(now: int, duration: int)
      modifies this
      ensures key == Expiring(old(key), now, duration)
    {
      if key.Present? && key.deadline.Some? && key.deadline.value <= now {
        key := Absent;
      }
      if key.Present? {
        if duration > 0 {
          key := Present(key.count, Some(now + duration));
        } else {
          key := Absent;
        }
      }
    }

    method Ttl(now: int) returns (ttl: int)
      ensures ttl == TimeToLive(key, now)
    {
      if key.Absent? || (key.deadline.Some? && key.deadline.value <= now) {
        return -2;
      }
      ttl := if key.deadline.Some? then key.deadline.value - now else -1;
    }
  }

  datatype Headers = Headers(limit: int, remaining: int, reset: int)

  /** canActivate with nothing in between its commands, issued at times t1, t2 and t3. */
  method CanActivate(c: Config, key: RedisKey, t1: int, t2: int, t3: int) returns (ok: bool, headers: Headers)
    modifies key
    ensures var k1 := Incremented(old(key.key), t1);
      && key.key == (if k1.count == 1 then Expiring(k1, t2, c.duration) else k1)
      && (ok <==> k1.count <= c.points)
      && headers == Headers(c.points, if k1.count < c.points then c.points - k1.count else 0,
          t3 + TimeToLive(key.key, t3))
  {
    var current := key.Incr(t1);
    if current == 1 {
      key.Expire(t2, c.duration);
    }
    var ttl := key.Ttl(t3);
    headers := Headers(c.points, if 0 < c.points - current then c.points - current else 0, t3 + ttl);
    ok := current <= c.points;
  }

  /** The key after m more incr commands at one time. */
  function IncrementedTimes(k: Counter, now: int, m: nat): Counter {
    if m == 0 then k else Incremented(IncrementedTimes(k, now, m - 1), now)
  }

  lemma {:induction false} CountsOn(n: nat, d: int, now: int, m: nat)
    requires now < d
    ensures IncrementedTimes(Present(n, Some(d)), now, m) == Present(n + m, Some(d))
  {
    if m == 0 {
    } else {
      CountsOn(n, d, now, m - 1);
    }
  }

  /** The request that opens a window is told the end of the window, whenever the ttl answers. */
  lemma OpenerIsToldTheEnd(c: Config, t1: int, t2: int, t3: int)
    requires c.duration > 0 && t2 <= t3 < t2 + c.duration
    ensures var k := Expiring(Incremented(Absent, t1), t2, c.duration);
      k == Present(1, Some(t2 + c.duration)) && t3 + TimeToLive(k, t3) == t2 + c.duration
  {
  }

  /** Redis deletes a key that is to expire at once: with such a duration every request is the first. */
  lemma NoDurationNoLimit(c: Config, t1: int, t2: int, later: int)
    requires c.duration <= 0
    ensures Incremented(Expiring(Incremented(Absent, t1), t2, c.duration), later).count == 1
  {
  }

  /** Without a deadline the reset that is told lies a second back. */
  lemma NoDeadlineToTell(n: nat, t: int)
    ensures t + TimeToLive(Present(n, None), t) == t - 1 && t + TimeToLive(Absent, t) == t - 2
  {
  }

  /**
   * What the headers of a request promise in an open window: its reset is the window's end, and of the
   * requests that follow before that, the m-th is let through exactly when m is at most the remaining number.
   */
  lemma HeadersAreTrue(c: Config, n: nat, d: int, t: int, now: int, m: nat)
    requires t < d && now < d && m >= 1
    ensures t + TimeToLive(Present(n, Some(d)), t) == d
    ensures var remaining := if n < c.points then c.points - n else 0;
      IncrementedTimes(Present(n, Some(d)), now, m).count <= c.points <==> m <= remaining
  {
    CountsOn(n, d, now, m);
  }

  // ---------------------------------------------------------------- interleaved requests

  /** Where a request stands, with the value its incr returned. */
  datatype Phase = WantsExpire | WantsTtl(current: nat) | Done(admitted: bool)

  /** One incr: who, when, in which lifetime of the key, and what it returned. */
  datatype Count = Count(id: nat, time: int, life: nat, value: nat)

  /**
   * starts holds when each lifetime began, opener who began the last one, expires when a lifetime's expire
   * ran, answers when the guard answered a request.
   */
  datatype World = World(
    key: Counter, now: int, phases: map<nat, Phase>, counts: seq<Count>, starts: seq<int>, opener: nat,
    expires: map<int, int>, answers: map<nat, int>)

  datatype Event =
    | Incr(id: nat, time: int)
    | Expire(id: nat, time: int)
    | Ttl(id: nat, time: int)
    | Crash(id: nat, time: int)

  predicate Enabled(w: World, e: Event) {
    && w.now <= e.time
    && match e
       case Incr(id, _) => id !in w.phases
       case Expire(id, _) => id in w.phases && w.phases[id].WantsExpire?
       case Ttl(id, _) => id in w.phases && w.phases[id].WantsTtl?
       case Crash(id, _) => id in w.phases && !w.phases[id].Done?
  }

  function Step(c: Config, w: World, e: Event): World
    requires Enabled(w, e)
  {
    match e
    case Incr(id, t) =>
      var k := Incremented(w.key, t);
      var starts := if k.count == 1 then w.starts + [t] else w.starts;
      var life := if starts == [] then 0 else |starts| - 1;
      World(k, t, w.phases[id := if k.count == 1 then WantsExpire else WantsTtl(k.count)],
            w.counts + [Count(id, t, life, k.count)], starts,
            if k.count == 1 then id else w.opener, w.expires, w.answers)
    case Expire(id, t) =>
      w.(key := Expiring(w.key, t, c.duration), now := t, phases := w.phases[id := WantsTtl(1)],
         expires := w.expires[|w.starts| - 1 := t])
    case Ttl(id, t) =>
      w.(now := t, phases := w.phases[id := Done(w.phases[id].current <= c.points)], answers := w.answers[id := t])
    case Crash(id, t) =>
      w.(now := t, phases := w.phases[id := Done(false)])
  }

  predicate Legal(c: Config, w: World, es: seq<Event>)
    decreases |es|
  {
    es == [] || (Enabled(w, es[0]) && Legal(c, Step(c, w, es[0]), es[1..]))
  }

  function Run(c: Config, w: World, es: seq<Event>): World
    requires Legal(c, w, es)
    decreases |es|
  {
    if es == [] then w else Run(c, Step(c, w, es[0]), es[1..])
  }

  function Start(now: int): World {
    World(Absent, now, map[], [], [], 0, map[], map[])
  }

  /** The request of this incr was let through. */
  predicate Admitted(w: World, n: Count) {
    n.id in w.phases && w.phases[n.id] == Done(true)
  }

  lemma OneStep(c: Config, w: World, e: Event)
    requires Enabled(w, e)
    ensures Legal(c, w, [e]) && Run(c, w, [e]) == Step(c, w, e)
  {
    assert [e][1..] == [];
  }

  lemma FirstStep(c: Config, w: World, e: Event, es: seq<Event>)
    requires Enabled(w, e) && Legal(c, Step(c, w, e), es)
    ensures Legal(c, w, [e] + es) && Run(c, w, [e] + es) == Run(c, Step(c, w, e), es)
  {
    assert ([e] + es)[1..] == es;
  }

  /** The commands of a request that nobody interrupts do to the key, and decide, what canActivate does. */
  lemma GuardIsRun(c: Config, w: World, id: nat, t1: int, t2: int, t3: int)
    requires id !in w.phases && w.now <= t1 <= t2 <= t3
    ensures var k := Incremented(w.key, t1);
      var es := if k.count == 1 then [Incr(id, t1), Expire(id, t2), Ttl(id, t3)] else [Incr(id, t1), Ttl(id, t3)];
      && Legal(c, w, es) && id in Run(c, w, es).phases
      && Run(c, w, es).key == (if k.count == 1 then Expiring(k, t2, c.duration) else k)
      && Run(c, w, es).phases[id] == Done(k.count <= c.points)
  {
    var k, v := Incremented(w.key, t1), Step(c, w, Incr(id, t1));
    if k.count == 1 {
      OneStep(c, Step(c, v, Expire(id, t2)), Ttl(id, t3));
      FirstStep(c, v, Expire(id, t2), [Ttl(id, t3)]);
      FirstStep(c, w, Incr(id, t1), [Expire(id, t2)] + [Ttl(id, t3)]);
    } else {
      OneStep(c, v, Ttl(id, t3));
      FirstStep(c, w, Incr(id, t1), [Ttl(id, t3)]);
    }
  }

  // ---------------------------------------------------------------- what every step keeps

  /** Lifetimes follow each other at least a duration apart; within one the counts increase. */
  ghost predicate Ordered(c: Config, counts: seq<Count>, starts: seq<int>) {
    && (forall l :: 0 <= l < |starts| - 1 ==> starts[l] + c.duration <= starts[l + 1])
    && (forall i :: 0 <= i < |counts| ==> Placed(counts[i], starts))
    && (forall i, j :: 0 <= i < j < |counts| ==> Before(counts[i], counts[j]))
  }

  /** A count lies within its lifetime, the first one at its start. */
  predicate Placed(x: Count, starts: seq<int>) {
    && x.life < |starts| && starts[x.life] <= x.time && x.value >= 1
    && (x.value == 1 ==> x.time == starts[x.life])
    && (x.life + 1 < |starts| ==> x.time < starts[x.life + 1])
  }

  predicate Before(a: Count, b: Count) {
    a.id != b.id && a.time <= b.time && (a.life < b.life || (a.life == b.life && a.value < b.value))
  }

  ghost predicate Past(w: World) {
    && (forall i :: 0 <= i < |w.counts| ==> w.counts[i].time <= w.now && w.counts[i].id in w.phases)
    && (forall l :: 0 <= l < |w.starts| ==> w.starts[l] <= w.now)
  }

  /** The key counts the last lifetime, whose deadline, once set, lies a duration after its start. */
  ghost predicate KeyCounts(c: Config, w: World) {
    match w.key
    case Absent => w.starts == []
    case Present(n, d) =>
      && w.starts != [] && n >= 1
      && (d.Some? ==> w.starts[|w.starts| - 1] + c.duration <= d.value)
      && (forall i :: 0 <= i < |w.counts| && w.counts[i].life == |w.starts| - 1 ==>
            w.counts[i].value <= n && (d.Some? ==> w.counts[i].time < d.value))
  }

  /** A deadline means that the lifetime's expire ran; only the opener of a lifetime without one may still run it. */
  ghost predicate Windows(c: Config, w: World) {
    && (forall l :: l in w.expires ==> l < |w.starts|)
    && (w.key.Present? ==>
          var l := |w.starts| - 1;
          && (w.key.deadline.Some? <==> l in w.expires)
          && (w.key.deadline.Some? ==> w.key.deadline.value == w.expires[l] + c.duration))
    && (forall id :: id in w.phases && w.phases[id].WantsExpire? ==>
          id == w.opener && w.key.Present? && w.key.deadline.None?)
  }

  ghost predicate AllHonest(c: Config, w: World) {
    forall i :: 0 <= i < |w.counts| ==> Honest(c, w, w.counts[i])
  }

  ghost predicate Inv(c: Config, w: World) {
    Ordered(c, w.counts, w.starts) && Past(w) && KeyCounts(c, w) && AllHonest(c, w) && Windows(c, w)
  }

  /** The phase of a request carries the value that its incr returned; it is let through after its incr. */
  ghost predicate Honest(c: Config, w: World, n: Count) {
    n.id in w.phases &&
    match w.phases[n.id]
    case WantsExpire => n.value == 1
    case WantsTtl(v) => n.value == v
    case Done(ok) => ok ==> n.value <= c.points && n.id in w.answers && n.time <= w.answers[n.id]
  }

  lemma AddCount(c: Config, counts: seq<Count>, starts: seq<int>, n: Count, more: seq<int>)
    requires Ordered(c, counts, starts) && n.value >= 1 && n.life == |more| - 1
    requires forall i :: 0 <= i < |counts| ==> Before(counts[i], n)
    requires if n.value == 1 then more == starts + [n.time]
             else more == starts && starts != [] && starts[n.life] <= n.time
    requires n.value == 1 && starts != [] ==>
               starts[|starts| - 1] + c.duration <= n.time
               && forall i :: 0 <= i < |counts| && counts[i].life == |starts| - 1 ==> counts[i].time < n.time
    ensures Ordered(c, counts + [n], more)
  {
    var all := counts + [n];
    assert forall i :: 0 <= i < |counts| ==> all[i] == counts[i];
    assert forall l :: 0 <= l < |starts| ==> more[l] == starts[l];
    forall i | 0 <= i < |all| ensures Placed(all[i], more) {
      assert i < |counts| ==> Placed(counts[i], starts) && Before(counts[i], n);
    }
  }

  lemma IncrKeepsInv(c: Config, w: World, id: nat, t: int)
    requires c.duration > 0 && Inv(c, w) && Enabled(w, Incr(id, t))
    ensures Inv(c, Step(c, w, Incr(id, t)))
  {
    var v := Step(c, w, Incr(id, t));
    var n := |w.counts|;
    var added := v.counts[n];
    assert forall i :: 0 <= i < n ==> v.counts[i] == w.counts[i];
    forall i | 0 <= i < n ensures Before(w.counts[i], added) {
      assert w.counts[i].id in w.phases;
      assert w.counts[i].life == |w.starts| - 1 && w.key.Present? ==> w.counts[i].value <= w.key.count;
    }
    assert added.value == 1 && w.starts != [] ==> w.key.Present? && w.key.deadline.Some? && w.key.deadline.value <= t;
    AddCount(c, w.counts, w.starts, added, v.starts);
    IncrKeepsRest(c, w, id, t);
  }

  lemma IncrKeepsRest(c: Config, w: World, id: nat, t: int)
    requires c.duration > 0 && Inv(c, w) && Enabled(w, Incr(id, t))
    ensures var v := Step(c, w, Incr(id, t)); Past(v) && KeyCounts(c, v) && AllHonest(c, v) && Windows(c, v)
  {
    var v := Step(c, w, Incr(id, t));
    var n := |w.counts|;
    forall i | 0 <= i < |v.counts| ensures Honest(c, v, v.counts[i]) {
    }
  }

  lemma ExpireKeepsInv(c: Config, w: World, id: nat, t: int)
    requires c.duration > 0 && Inv(c, w) && Enabled(w, Expire(id, t))
    ensures Inv(c, Step(c, w, Expire(id, t)))
  {
    var v := Step(c, w, Expire(id, t));
    forall i | 0 <= i < |v.counts| ensures Honest(c, v, v.counts[i]) {
      assert Honest(c, w, w.counts[i]);
    }
  }

  lemma StepKeepsInv(c: Config, w: World, e: Event)
    requires c.duration > 0 && Inv(c, w) && Enabled(w, e)
    ensures Inv(c, Step(c, w, e))
  {
    match e
    case Incr(id, t) => IncrKeepsInv(c, w, id, t);
    case Expire(id, t) => ExpireKeepsInv(c, w, id, t);
    case _ =>
      var v := Step(c, w, e);
      forall i | 0 <= i < |v.counts| ensures Honest(c, v, v.counts[i]) {
        assert Honest(c, w, w.counts[i]);
      }
  }

  lemma {:induction false} RunKeepsInv(c: Config, w: World, es: seq<Event>)
    requires c.duration > 0 && Inv(c, w) && Legal(c, w, es)
    ensures Inv(c, Run(c, w, es))
    decreases |es|
  {
    if es == [] {
    } else {
      StepKeepsInv(c, w, es[0]);
      RunKeepsInv(c, Step(c, w, es[0]), es[1..]);
    }
  }

  // ---------------------------------------------------------------- counting admissions

  function AdmittedIn(w: World, from: int, to: int): (r: set<nat>) {
    set i: nat | i < |w.counts| && from <= w.counts[i].time < to && Admitted(w, w.counts[i])
  }

  function AdmittedOf(w: World, life: nat): (r: set<nat>) {
    set i: nat | i < |w.counts| && w.counts[i].life == life && Admitted(w, w.counts[i])
  }

  /** A set that a function maps one to one below n has at most n elements. */
  lemma {:induction false} Pigeons(s: set<nat>, f: nat -> int, n: nat)
    requires forall i :: i in s ==> 0 <= f(i) < n
    requires forall i, j :: i in s && j in s && f(i) == f(j) ==> i == j
    ensures |s| <= n
    decreases n
  {
    if n == 0 {
      assert forall i: nat :: i !in s;
      assert s == {};
    } else if i: nat :| i in s && f(i) == n - 1 {
      Pigeons(s - {i}, f, n - 1);
    } else {
      Pigeons(s, f, n - 1);
    }
  }

  /** One lifetime of the counter admits at most `points` requests, also one that never gets a deadline. */
  lemma LifetimeAdmits(c: Config, start: int, es: seq<Event>, life: nat)
    requires c.duration > 0 && c.points >= 0 && Legal(c, Start(start), es)
    ensures |AdmittedOf(Run(c, Start(start), es), life)| <= c.points
  {
    RunKeepsInv(c, Start(start), es);
    var w := Run(c, Start(start), es);
    LifetimeAdmitsIn(c, w, life);
  }

  lemma LifetimeAdmitsIn(c: Config, w: World, life: nat)
    requires c.points >= 0 && Inv(c, w)
    ensures |AdmittedOf(w, life)| <= c.points
  {
    var s := AdmittedOf(w, life);
    var f := (i: nat) => if i < |w.counts| then w.counts[i].value - 1 else 0;
    forall i | i in s ensures 0 <= f(i) < c.points {
      assert Honest(c, w, w.counts[i]);
    }
    forall i, j | i in s && j in s && i < j ensures f(i) < f(j) {
      assert Before(w.counts[i], w.counts[j]);
    }
    Pigeons(s, f, c.points);
  }

  lemma {:induction false} StartsApart(c: Config, w: World, l: nat, m: nat)
    requires c.duration > 0 && Inv(c, w) && l <= m < |w.starts|
    ensures w.starts[l] + (m - l) * c.duration <= w.starts[m]
    decreases m
  {
    if l == m {
    } else {
      StartsApart(c, w, l, m - 1);
      assert w.starts[m - 1] + c.duration <= w.starts[m];
      OneMoreTime(m - 1 - l, c.duration);
    }
  }

  lemma OneMoreTime(x: int, d: int)
    ensures (x + 1) * d == x * d + d
  {
  }

  lemma TimesGrow(x: int, y: int, d: int)
    requires x <= y && d >= 0
    ensures x * d <= y * d
  {
    assert y * d == x * d + (y - x) * d;
  }

  lemma FewerTimes(x: int, y: int, d: int)
    requires d > 0 && x * d < y * d
    ensures x < y
  {
    if x >= y {
      TimesGrow(y, x, d);
    }
  }

  /**
   * Counts less than k durations apart lie at most k lifetimes apart, and exactly k only if the interval misses
   * the first start.
   */
  lemma LivesWithin(c: Config, w: World, from: int, k: nat, i: nat, j: nat)
    requires c.duration > 0 && k >= 1 && Inv(c, w) && i <= j < |w.counts|
    requires from <= w.counts[i].time && w.counts[j].time < from + k * c.duration
    ensures w.counts[i].life <= w.counts[j].life <= w.counts[i].life + k
    ensures w.counts[j].life == w.counts[i].life + k ==> w.counts[i].value > 1 && c.duration > 1
  {
    var a, b := w.counts[i], w.counts[j];
    assert i < j ==> Before(a, b);
    if a.life < b.life {
      assert Placed(a, w.starts) && Placed(b, w.starts);
      StartsApart(c, w, a.life, b.life);
      StartsApart(c, w, a.life + 1, b.life);
      OneMoreTime(b.life - a.life - 1, c.duration);
      FewerTimes(b.life - a.life - 1, k, c.duration);
    }
  }

  lemma Least(s: set<nat>) returns (m: nat)
    requires s != {}
    ensures m in s && forall i :: i in s ==> m <= i
  {
    var x :| x in s;
    if s == {x} {
      m := x;
    } else {
      var rest := s - {x};
      assert s == rest + {x};
      m := Least(rest);
      m := if x < m then x else m;
    }
  }

  /** The counts of lifetimes l, l + 1 and so on in a row, the first `skipped` left out. */
  function Rank(c: Config, n: Count, l: nat, skipped: nat): int {
    (n.life - l) * c.points + n.value - 1 - skipped
  }

  lemma RankGrows(c: Config, a: Count, b: Count, l: nat, skipped: nat)
    requires Before(a, b) && 1 <= a.value <= c.points && 1 <= b.value <= c.points
    ensures Rank(c, a, l, skipped) < Rank(c, b, l, skipped)
  {
    if a.life < b.life {
      OneMoreTime(a.life - l, c.points);
      TimesGrow(a.life - l + 1, b.life - l, c.points);
    }
  }

  lemma RankFits(c: Config, n: Count, l: nat, last: nat, skipped: nat)
    requires l <= n.life <= l + last && 1 <= n.value <= c.points && skipped <= 1
    requires n.life == l ==> n.value > skipped
    ensures 0 <= Rank(c, n, l, skipped) < (last + 1) * c.points - skipped
  {
    OneMoreTime(last, c.points);
    TimesGrow(n.life - l, last, c.points);
    if n.life > l {
      TimesGrow(1, n.life - l, c.points);
    }
  }

  /** Admissions in last + 1 lifetimes from l on. */
  lemma ManyLives(c: Config, w: World, s: set<nat>, l: nat, last: nat, skipped: nat)
    requires Inv(c, w) && skipped <= 1 && c.points >= 1
    requires forall i :: i in s ==>
        i < |w.counts| && l <= w.counts[i].life <= l + last && 1 <= w.counts[i].value <= c.points
    requires forall i :: i in s && w.counts[i].life == l ==> w.counts[i].value > skipped
    ensures |s| <= (last + 1) * c.points - skipped
  {
    var f := (i: nat) => if i < |w.counts| then Rank(c, w.counts[i], l, skipped) else 0;
    var n := (last + 1) * c.points - skipped;
    forall i | i in s ensures 0 <= f(i) < n {
      RankFits(c, w.counts[i], l, last, skipped);
    }
    forall i, j | i in s && j in s && i < j ensures f(i) < f(j) {
      RankGrows(c, w.counts[i], w.counts[j], l, skipped);
    }
    TimesGrow(1, last + 1, c.points);
    Pigeons(s, f, n);
  }

  /**
   * Any half-open interval of k durations holds at most (k + 1) * points - 1 admitted requests, timed by
   * their incr: 2 * points - 1 in one duration.
   */
  lemma IntervalAdmits(c: Config, start: int, es: seq<Event>, from: int, k: nat)
    requires c.duration > 0 && k >= 1 && Legal(c, Start(start), es)
    ensures var n := |AdmittedIn(Run(c, Start(start), es), from, from + k * c.duration)|;
      n == 0 || n <= (k + 1) * c.points - 1
  {
    RunKeepsInv(c, Start(start), es);
    IntervalAdmitsIn(c, Run(c, Start(start), es), from, k);
  }

  /** As many as k + 1 lifetimes only without the opener of the first. */
  lemma InLives(c: Config, w: World, s: set<nat>, l: nat, k: nat)
    requires Inv(c, w) && c.points >= 1 && k >= 1
    requires forall i :: i in s ==>
        i < |w.counts| && l <= w.counts[i].life <= l + k && 1 <= w.counts[i].value <= c.points
    requires forall i, j :: i in s && j in s && w.counts[i].life == l && w.counts[j].life == l + k ==>
               w.counts[i].value > 1 && c.duration > 1
    requires exists i :: i in s && w.counts[i].life == l
    ensures |s| <= (k + 1) * c.points - 1 && (c.duration == 1 ==> |s| <= k * c.points)
  {
    OneMoreTime(k, c.points);
    if j :| j in s && w.counts[j].life == l + k {
      ManyLives(c, w, s, l, k, 1);
    } else {
      ManyLives(c, w, s, l, k - 1, 0);
    }
  }

  lemma IntervalAdmitsIn(c: Config, w: World, from: int, k: nat)
    requires c.duration > 0 && k >= 1 && Inv(c, w)
    ensures var n := |AdmittedIn(w, from, from + k * c.duration)|;
      n == 0 || (n <= (k + 1) * c.points - 1 && (c.duration == 1 ==> n <= k * c.points))
  {
    var s := AdmittedIn(w, from, from + k * c.duration);
    if s != {} {
      var m := Least(s);
      var l := w.counts[m].life;
      forall i | i in s ensures l <= w.counts[i].life <= l + k && 1 <= w.counts[i].value <= c.points {
        LivesWithin(c, w, from, k, m, i);
        assert Honest(c, w, w.counts[i]) && Placed(w.counts[i], w.starts);
      }
      forall i, j | i in s && j in s && w.counts[i].life == l && w.counts[j].life == l + k
        ensures w.counts[i].value > 1 && c.duration > 1
      {
        assert !Before(w.counts[j], w.counts[i]);
        LivesWithin(c, w, from, k, i, j);
      }
      assert m in s && c.points >= 1;
      InLives(c, w, s, l, k);
    }
  }

  // ---------------------------------------------------------------- admissions timed by the answer

  /** The admitted requests that the guard answers in an interval. */
  function AnsweredIn(w: World, from: int, to: int): (r: set<nat>) {
    set i: nat | i < |w.counts| && Admitted(w, w.counts[i]) && w.counts[i].id in w.answers
                 && from <= w.answers[w.counts[i].id] < to
  }

  /** Every answer comes within a latency of its request's incr. */
  ghost predicate Prompt(w: World, latency: int) {
    forall i :: 0 <= i < |w.counts| && w.counts[i].id in w.answers ==>
        w.answers[w.counts[i].id] <= w.counts[i].time + latency
  }

  lemma {:induction false} Fewer(a: set<nat>, b: set<nat>)
    requires a <= b
    ensures |a| <= |b|
    decreases a
  {
    if a == {} {
    } else {
      var x :| x in a;
      Fewer(a - {x}, b - {x});
    }
  }

  lemma AnsweredEarlier(c: Config, w: World, from: int, to: int, latency: int)
    requires Inv(c, w) && Prompt(w, latency)
    ensures |AnsweredIn(w, from, to)| <= |AdmittedIn(w, from - latency, to)|
  {
    forall i | i in AnsweredIn(w, from, to) ensures i in AdmittedIn(w, from - latency, to) {
      assert Honest(c, w, w.counts[i]);
    }
    Fewer(AnsweredIn(w, from, to), AdmittedIn(w, from - latency, to));
  }

  lemma AnswersAdmitIn(c: Config, w: World, from: int, to: int, j: nat, latency: int)
    requires c.duration > 0 && Inv(c, w) && Prompt(w, latency) && to == from - latency + (j + 1) * c.duration
    ensures var n := |AnsweredIn(w, from, to)|; n == 0 || n <= (j + 2) * c.points - 1
  {
    AnsweredEarlier(c, w, from, to, latency);
    IntervalAdmitsIn(c, w, from - latency, j + 1);
  }

  /**
   * With answers within j durations of their incr, one duration holds at most (j + 2) * points - 1 of them that
   * admit.
   */
  lemma AnswersAdmit(c: Config, start: int, es: seq<Event>, from: int, j: nat)
    requires c.duration > 0 && Legal(c, Start(start), es) && Prompt(Run(c, Start(start), es), j * c.duration)
    ensures var n := |AnsweredIn(Run(c, Start(start), es), from, from + c.duration)|;
      n == 0 || n <= (j + 2) * c.points - 1
  {
    RunKeepsInv(c, Start(start), es);
    OneMoreTime(j, c.duration);
    AnswersAdmitIn(c, Run(c, Start(start), es), from, from + c.duration, j, j * c.duration);
  }
}
