/**
 * executeWithResilience over the breaker: calls of many requests interleave, each admitted call records its
 * outcome later.
 */
module ProxyClient {
  import opened CircuitBreaker
  import opened Wrappers

  /** What the client did, in order. */
  datatype Entry =
    | Admitted(id: nat, time: int)
    | Rejected(id: nat, time: int)
    | Succeeded(id: nat, time: int)
    | Failed(id: nat, time: int)

  datatype World = World(breaker: Breaker, inFlight: set<nat>, now: int, log: seq<Entry>)

  /** A request asks to be let through; the upstream answers an admitted one. */
  datatype Event = Call(id: nat, time: int) | Answer(id: nat, ok: bool, time: int)

  function Begin(c: Config, w: World, id: nat, now: int): World {
    var (b, ok) := Asked(c, w.breaker, now);
    if ok then World(b, w.inFlight + {id}, now, w.log + [Admitted(id, now)])
    else World(b, w.inFlight, now, w.log + [Rejected(id, now)])
  }

  function Settle(c: Config, w: World, id: nat, ok: bool, now: int): World {
    if ok then World(FRESH, w.inFlight - {id}, now, w.log + [Succeeded(id, now)])
    else World(AfterFailure(c, w.breaker, now), w.inFlight - {id}, now, w.log + [Failed(id, now)])
  }

  function Step(c: Config, w: World, e: Event): World {
    match e
    case Call(id, t) => Begin(c, w, id, t)
    case Answer(id, ok, t) => Settle(c, w, id, ok, t)
  }

  /** The client object: the two halves of executeWithResilience around its await. */
  class QueryMindClient {
    const breaker: CircuitBreakerService
    var inFlight: set<nat>
    var now: int
    ghost var log: seq<Entry>

    constructor (breaker: CircuitBreakerService, now: int)
      ensures this.breaker == breaker && inFlight == {} && log == [] && this.now == now
    {
      this.breaker := breaker;
      this.inFlight := {};
      this.now := now;
      this.log := [];
    }

    ghost function Value(): World
      reads this, breaker
    {
      World(breaker.Value(), inFlight, now, log)
    }

    method Start(id: nat, time: int) returns (admitted: bool)
      modifies this, breaker
      ensures Value() == Step(breaker.config, old(Value()), Call(id, time))
      ensures log == old(log) + [if admitted then Admitted(id, time) else Rejected(id, time)]
    {
      admitted := breaker.CanExecute(time);
      now := time;
      if admitted {
        inFlight := inFlight + {id};
        log := log + [Admitted(id, time)];
      } else {
        log := log + [Rejected(id, time)];
      }
    }

    method Finish(id: nat, ok: bool, time: int)
      modifies this, breaker
      ensures Value() == Step(breaker.config, old(Value()), Answer(id, ok, time))
    {
      now := time;
      inFlight := inFlight - {id};
      if ok {
        breaker.RecordSuccess();
        log := log + [Succeeded(id, time)];
      } else {
        breaker.RecordFailure(time);
        log := log + [Failed(id, time)];
      }
    }
  }

  // ---------------------------------------------------------------- runs

  predicate Enabled(w: World, e: Event) {
    && w.now <= e.time && 0 < e.time
    && match e
       case Call(id, _) => Calls(w.log, id) == 0
       case Answer(id, _, _) => id in w.inFlight
  }

  predicate Legal(c: Config, w: World, es: seq<Event>)
    decreases |es|
  {
    es == [] || (Enabled(w, es[0]) && Legal(c, Step(c, w, es[0]), es[1..]))
  }

  function Run(c: Config, w: World, es: seq<Event>): World
    decreases |es|
  {
    if es == [] then w else Run(c, Step(c, w, es[0]), es[1..])
  }

  function Start(now: int): World {
    World(FRESH, {}, now, [])
  }

  // ---------------------------------------------------------------- the log read back

  function FailuresSince(log: seq<Entry>): nat {
    if log == [] then 0
    else match log[|log| - 1]
      case Succeeded(_, _) => 0
      case Failed(_, _) => FailuresSince(log[..|log| - 1]) + 1
      case _ => FailuresSince(log[..|log| - 1])
  }

  /** The last failure since the last success. */
  function LastFailure(log: seq<Entry>): Option<int> {
    if log == [] then None
    else match log[|log| - 1]
      case Succeeded(_, _) => None
      case Failed(_, t) => Some(t)
      case _ => LastFailure(log[..|log| - 1])
  }

  function Calls(log: seq<Entry>, id: nat): nat {
    if log == [] then 0
    else
      var x := log[|log| - 1];
      Calls(log[..|log| - 1], id) + (if (x.Admitted? || x.Rejected?) && x.id == id then 1 else 0)
  }

  function Admissions(log: seq<Entry>, id: nat): nat {
    if log == [] then 0
    else Admissions(log[..|log| - 1], id) + (if log[|log| - 1].Admitted? && log[|log| - 1].id == id then 1 else 0)
  }

  function Outcomes(log: seq<Entry>, id: nat): nat {
    if log == [] then 0
    else
      var x := log[|log| - 1];
      Outcomes(log[..|log| - 1], id) + (if (x.Succeeded? || x.Failed?) && x.id == id then 1 else 0)
  }

  /** The rule a reader would write down: few failures since the last success, or a cool-down since the last failure. */
  predicate Rule(c: Config, log: seq<Entry>, now: int) {
    || FailuresSince(log) < c.threshold
    || (LastFailure(log).Some? && now - LastFailure(log).value >= c.resetTimeout)
  }

  // ---------------------------------------------------------------- the breaker refines the rule

  /** The breaker's fields agree with each other. */
  predicate Sound(c: Config, b: Breaker, now: int) {
    && (b.state == CLOSED <==> b.failures < c.threshold)
    && (b.failures > 0 <==> b.lastFailure.Some?)
    && (b.lastFailure.Some? ==> 0 < b.lastFailure.value <= now)
    && (b.state == HALF_OPEN ==> Cooled(c, b, now))
  }

  /** The breaker's counters are those of the log. */
  predicate Counted(w: World) {
    w.breaker.failures == FailuresSince(w.log) && w.breaker.lastFailure == LastFailure(w.log)
  }

  predicate Inv(c: Config, w: World) {
    Counted(w) && Sound(c, w.breaker, w.now)
  }

  lemma AskKeepsSound(c: Config, b: Breaker, now: int, later: int)
    requires c.threshold >= 1 && Sound(c, b, now) && now <= later
    ensures Sound(c, Asked(c, b, later).0, later)
  {
  }

  lemma FailureKeepsSound(c: Config, b: Breaker, now: int, later: int)
    requires c.threshold >= 1 && Sound(c, b, now) && now <= later && 0 < later
    ensures Sound(c, AfterFailure(c, b, later), later)
  {
  }

  lemma ReadBack(log: seq<Entry>, x: Entry)
    ensures FailuresSince(log + [x]) == match x
      case Succeeded(_, _) => 0
      case Failed(_, _) => FailuresSince(log) + 1
      case _ => FailuresSince(log)
    ensures LastFailure(log + [x]) == match x
      case Succeeded(_, _) => None
      case Failed(_, t) => Some(t)
      case _ => LastFailure(log)
  {
    var l := log + [x];
    assert l[..|l| - 1] == log && l[|l| - 1] == x;
  }

  lemma StepKeepsCounted(c: Config, w: World, e: Event)
    requires Counted(w)
    ensures Counted(Step(c, w, e))
  {
    match e {
      case Call(x, t) =>
        if Asked(c, w.breaker, t).1 {
          ReadBack(w.log, Admitted(x, t));
        } else {
          ReadBack(w.log, Rejected(x, t));
        }
      case Answer(x, ok, t) =>
        if ok {
          ReadBack(w.log, Succeeded(x, t));
        } else {
          ReadBack(w.log, Failed(x, t));
        }
    }
  }

  lemma StepKeepsInv(c: Config, w: World, e: Event)
    requires c.threshold >= 1 && Inv(c, w) && Enabled(w, e)
    ensures Inv(c, Step(c, w, e))
  {
    StepKeepsCounted(c, w, e);
    AskKeepsSound(c, w.breaker, w.now, e.time);
    FailureKeepsSound(c, w.breaker, w.now, e.time);
  }

  lemma {:induction false} RunKeepsInv(c: Config, w: World, es: seq<Event>)
    requires c.threshold >= 1 && Inv(c, w) && Legal(c, w, es)
    ensures Inv(c, Run(c, w, es))
    decreases |es|
  {
    if es == [] {
    } else {
      StepKeepsInv(c, w, es[0]);
      RunKeepsInv(c, Step(c, w, es[0]), es[1..]);
    }
  }

  /** The answer of canExecute after any interleaved run, at any later time, is the stateless rule. */
  lemma BreakerIsRule(c: Config, start: int, es: seq<Event>, now: int)
    requires c.threshold >= 1 && Legal(c, Start(start), es)
    requires Run(c, Start(start), es).now <= now && 0 < now
    ensures var w := Run(c, Start(start), es);
      && (Asked(c, w.breaker, now).1 <==> Rule(c, w.log, now))
      && (w.breaker.state == CLOSED <==> FailuresSince(w.log) < c.threshold)
  {
    RunKeepsInv(c, Start(start), es);
  }

  /** The last call let through has had no outcome recorded after it. */
  predicate Probed(log: seq<Entry>) {
    log != [] &&
    match log[|log| - 1]
    case Rejected(_, _) => Probed(log[..|log| - 1])
    case Admitted(_, _) => true
    case _ => false
  }

  /** HALF_OPEN: enough failures, and a call let through since. */
  predicate Probing(c: Config, w: World) {
    w.breaker.state == HALF_OPEN <==> FailuresSince(w.log) >= c.threshold && Probed(w.log)
  }

  lemma ProbedBack(log: seq<Entry>, x: Entry)
    ensures Probed(log + [x]) <==> x.Admitted? || (x.Rejected? && Probed(log))
  {
    var l := log + [x];
    assert l[..|l| - 1] == log && l[|l| - 1] == x;
  }

  lemma BeginKeepsProbing(c: Config, w: World, x: nat, t: int)
    requires Inv(c, w) && Probing(c, w)
    ensures Probing(c, Begin(c, w, x, t))
  {
    if Asked(c, w.breaker, t).1 {
      ReadBack(w.log, Admitted(x, t));
      ProbedBack(w.log, Admitted(x, t));
    } else {
      ReadBack(w.log, Rejected(x, t));
      ProbedBack(w.log, Rejected(x, t));
    }
  }

  lemma SettleKeepsProbing(c: Config, w: World, x: nat, ok: bool, t: int)
    requires c.threshold >= 1 && Inv(c, w)
    ensures Probing(c, Settle(c, w, x, ok, t))
  {
    if ok {
      ReadBack(w.log, Succeeded(x, t));
      ProbedBack(w.log, Succeeded(x, t));
    } else {
      ReadBack(w.log, Failed(x, t));
      ProbedBack(w.log, Failed(x, t));
    }
  }

  lemma {:induction false} RunKeepsProbing(c: Config, w: World, es: seq<Event>)
    requires c.threshold >= 1 && Inv(c, w) && Probing(c, w) && Legal(c, w, es)
    ensures Probing(c, Run(c, w, es))
    decreases |es|
  {
    if es == [] {
    } else {
      StepKeepsInv(c, w, es[0]);
      match es[0] {
        case Call(x, t) => BeginKeepsProbing(c, w, x, t);
        case Answer(x, ok, t) => SettleKeepsProbing(c, w, x, ok, t);
      }
      RunKeepsProbing(c, Step(c, w, es[0]), es[1..]);
    }
  }

  /** The three states, read off the log after any run. */
  lemma StateIsRead(c: Config, start: int, es: seq<Event>)
    requires c.threshold >= 1 && Legal(c, Start(start), es)
    ensures var w := Run(c, Start(start), es);
      w.breaker.state ==
        if FailuresSince(w.log) < c.threshold then CLOSED else if Probed(w.log) then HALF_OPEN else OPEN
  {
    RunKeepsInv(c, Start(start), es);
    RunKeepsProbing(c, Start(start), es);
  }

  ghost predicate RuleHolds(c: Config, start: int, es: seq<Event>, now: int) {
    Legal(c, Start(start), es) ==>
      var w := Run(c, Start(start), es);
      w.now <= now && 0 < now ==> (Asked(c, w.breaker, now).1 <==> Rule(c, w.log, now))
  }

  /** The configured threshold must be positive for that: otherwise already the first call disagrees. */
  lemma RuleNeedsThreshold(c: Config)
    ensures c.threshold >= 1 <==> forall start, es, now :: RuleHolds(c, start, es, now)
  {
    if c.threshold >= 1 {
      forall start, es, now | Legal(c, Start(start), es) && Run(c, Start(start), es).now <= now && 0 < now
        ensures RuleHolds(c, start, es, now)
      {
        BreakerIsRule(c, start, es, now);
      }
    } else {
      assert !RuleHolds(c, 1, [], 1);
    }
  }

  // ---------------------------------------------------------------- one outcome per admitted call

  /** A call is asked for at most once, and settled once if it was admitted and is no longer in flight. */
  predicate AccountOf(w: World, id: nat) {
    && Admissions(w.log, id) <= Calls(w.log, id) <= 1
    && Outcomes(w.log, id) + (if id in w.inFlight then 1 else 0) == Admissions(w.log, id)
  }

  ghost predicate Accounted(w: World) {
    forall id :: AccountOf(w, id)
  }

  lemma CountBack(log: seq<Entry>, x: Entry, id: nat)
    ensures Calls(log + [x], id) == Calls(log, id) + if (x.Admitted? || x.Rejected?) && x.id == id then 1 else 0
    ensures Admissions(log + [x], id) == Admissions(log, id) + if x.Admitted? && x.id == id then 1 else 0
    ensures Outcomes(log + [x], id) == Outcomes(log, id) + if (x.Succeeded? || x.Failed?) && x.id == id then 1 else 0
  {
    var l := log + [x];
    assert l[..|l| - 1] == log && l[|l| - 1] == x;
  }

  lemma BeginKeepsAccount(c: Config, w: World, x: nat, t: int, id: nat)
    requires AccountOf(w, id) && Calls(w.log, x) == 0
    ensures AccountOf(Begin(c, w, x, t), id)
  {
    if Asked(c, w.breaker, t).1 {
      CountBack(w.log, Admitted(x, t), id);
    } else {
      CountBack(w.log, Rejected(x, t), id);
    }
  }

  lemma SettleKeepsAccount(c: Config, w: World, x: nat, ok: bool, t: int, id: nat)
    requires AccountOf(w, id) && x in w.inFlight
    ensures AccountOf(Settle(c, w, x, ok, t), id)
  {
    if ok {
      CountBack(w.log, Succeeded(x, t), id);
    } else {
      CountBack(w.log, Failed(x, t), id);
    }
  }

  lemma StepKeepsAccount(c: Config, w: World, e: Event, id: nat)
    requires AccountOf(w, id) && Enabled(w, e)
    ensures AccountOf(Step(c, w, e), id)
  {
    match e
    case Call(x, t) => BeginKeepsAccount(c, w, x, t, id);
    case Answer(x, ok, t) => SettleKeepsAccount(c, w, x, ok, t, id);
  }

  lemma StepKeepsAccounted(c: Config, w: World, e: Event)
    requires Accounted(w) && Enabled(w, e)
    ensures Accounted(Step(c, w, e))
  {
    forall id ensures AccountOf(Step(c, w, e), id) {
      StepKeepsAccount(c, w, e, id);
    }
  }

  lemma {:induction false} RunKeepsAccounted(c: Config, w: World, es: seq<Event>)
    requires Accounted(w) && Legal(c, w, es)
    ensures Accounted(Run(c, w, es))
    decreases |es|
  {
    if es == [] {
    } else {
      StepKeepsAccounted(c, w, es[0]);
      RunKeepsAccounted(c, Step(c, w, es[0]), es[1..]);
    }
  }

  /** An admitted call has recorded one outcome once it is no longer in flight, a rejected one never records any. */
  lemma OneOutcomeEach(c: Config, start: int, es: seq<Event>, id: nat)
    requires Legal(c, Start(start), es)
    ensures var w := Run(c, Start(start), es);
      && Outcomes(w.log, id) == (if Admissions(w.log, id) == 1 && id !in w.inFlight then 1 else 0)
      && (id in w.inFlight ==> Admissions(w.log, id) == 1)
      && Admissions(w.log, id) <= Calls(w.log, id) <= 1
  {
    StartAccounted(start);
    RunKeepsAccounted(c, Start(start), es);
    assert AccountOf(Run(c, Start(start), es), id);
  }

  lemma StartAccounted(start: int)
    ensures Accounted(Start(start))
  {
    forall id: nat ensures Admissions([], id) == 0 && Calls([], id) == 0 && Outcomes([], id) == 0 {
    }
  }

  // ---------------------------------------------------------------- load on a dead backend

  /** No answer is a success, no time lies after the deadline, and at most cap calls are ever in flight. */
  predicate Dead(c: Config, w: World, es: seq<Event>, cap: nat, deadline: int)
    decreases |es|
  {
    && |w.inFlight| <= cap
    && (es == [] ||
        (es[0].time <= deadline && (es[0].Answer? ==> !es[0].ok) && Dead(c, Step(c, w, es[0]), es[1..], cap, deadline)))
  }

  /** How many calls get through. */
  function AdmittedIn(c: Config, w: World, es: seq<Event>): nat
    decreases |es|
  {
    if es == [] then 0
    else (if es[0].Call? && Asked(c, w.breaker, es[0].time).1 then 1 else 0) + AdmittedIn(c, Step(c, w, es[0]), es[1..])
  }

  /** Calls that cool-downs starting no earlier than `from` can let through until the deadline. */
  function Batches(c: Config, cap: nat, from: int, deadline: int): (n: nat)
    requires c.resetTimeout > 0
    decreases if from <= deadline then deadline - from + 1 else 0
  {
    if deadline < from then 0 else cap + Batches(c, cap, from + c.resetTimeout, deadline)
  }

  function Max(a: int, b: int): int {
    if a < b then b else a
  }

  /** What may still be admitted, as a function of the breaker and the calls in flight alone. */
  function Budget(c: Config, b: Breaker, flying: nat, now: int, cap: nat, deadline: int): int
    requires c.resetTimeout > 0
  {
    var later := Batches(c, cap, now + c.resetTimeout, deadline);
    match b.state
    case CLOSED => c.threshold - 1 - b.failures + cap - flying + later
    case HALF_OPEN => cap - flying + later
    case OPEN =>
      if b.lastFailure.Some? then Batches(c, cap, Max(now, b.lastFailure.value + c.resetTimeout), deadline) else 0
  }

  lemma {:induction false} BatchesFall(c: Config, cap: nat, a: int, b: int, deadline: int)
    requires c.resetTimeout > 0 && a <= b
    ensures Batches(c, cap, b, deadline) <= Batches(c, cap, a, deadline)
    decreases if b <= deadline then deadline - b + 1 else 0
  {
    if b <= deadline {
      BatchesFall(c, cap, a + c.resetTimeout, b + c.resetTimeout, deadline);
    }
  }

  /** A refused call waits, an admitted one is paid for: by its slot, or by the first batch of a cool-down. */
  lemma CallSpendsBudget(c: Config, b: Breaker, flying: nat, now: int, later: int, cap: nat, deadline: int)
    requires c.threshold >= 1 && c.resetTimeout > 0 && Sound(c, b, now) && now <= later <= deadline
    requires Asked(c, b, later).1 ==> flying + 1 <= cap
    ensures var (next, ok) := Asked(c, b, later); var n := if ok then 1 else 0;
      n + Budget(c, next, flying + n, later, cap, deadline) <= Budget(c, b, flying, now, cap, deadline)
  {
    var r := c.resetTimeout;
    if b.state == OPEN {
      var open := b.lastFailure.value + r;
      if Cooled(c, b, later) {
        BatchesFall(c, cap, Max(now, open), later, deadline);
      } else {
        BatchesFall(c, cap, Max(now, open), Max(later, open), deadline);
      }
    } else {
      BatchesFall(c, cap, now + r, later + r, deadline);
    }
  }

  /** A failure frees the slot its call paid for, or starts a cool-down that is already paid for. */
  lemma FailureSpendsBudget(c: Config, b: Breaker, flying: nat, now: int, later: int, cap: nat, deadline: int)
    requires c.threshold >= 1 && c.resetTimeout > 0 && Sound(c, b, now) && now <= later <= deadline
    requires 0 < flying <= cap
    ensures Budget(c, AfterFailure(c, b, later), flying - 1, later, cap, deadline)
         <= Budget(c, b, flying, now, cap, deadline)
  {
    var r := c.resetTimeout;
    if b.state == OPEN {
      BatchesFall(c, cap, Max(now, b.lastFailure.value + r), later + r, deadline);
    } else {
      BatchesFall(c, cap, now + r, later + r, deadline);
    }
  }

  function Left(c: Config, w: World, cap: nat, deadline: int): int
    requires c.resetTimeout > 0
  {
    Budget(c, w.breaker, |w.inFlight|, w.now, cap, deadline)
  }

  lemma StepSpendsBudget(c: Config, w: World, e: Event, cap: nat, deadline: int)
    requires c.threshold >= 1 && c.resetTimeout > 0 && Sound(c, w.breaker, w.now) && Enabled(w, e)
    requires e.time <= deadline && (e.Answer? ==> !e.ok) && (e.Call? ==> e.id !in w.inFlight)
    requires |w.inFlight| <= cap && |Step(c, w, e).inFlight| <= cap
    ensures (if e.Call? && Asked(c, w.breaker, e.time).1 then 1 else 0) + Left(c, Step(c, w, e), cap, deadline)
        <= Left(c, w, cap, deadline)
  {
    var v := Step(c, w, e);
    if e.Call? {
      assert Asked(c, w.breaker, e.time).1 ==> |v.inFlight| == |w.inFlight| + 1;
      CallSpendsBudget(c, w.breaker, |w.inFlight|, w.now, e.time, cap, deadline);
    } else {
      assert |v.inFlight| == |w.inFlight| - 1;
      FailureSpendsBudget(c, w.breaker, |w.inFlight|, w.now, e.time, cap, deadline);
    }
  }

  lemma {:induction false} DeadStaysInBudget(c: Config, w: World, es: seq<Event>, cap: nat, deadline: int)
    requires c.threshold >= 1 && c.resetTimeout > 0 && Inv(c, w) && Accounted(w)
    requires Legal(c, w, es) && Dead(c, w, es, cap, deadline)
    ensures AdmittedIn(c, w, es) <= Max(0, Left(c, w, cap, deadline))
    decreases |es|
  {
    if es == [] {
    } else {
      var e := es[0];
      var v := Step(c, w, e);
      assert AccountOf(w, e.id);
      StepSpendsBudget(c, w, e, cap, deadline);
      StepKeepsInv(c, w, e);
      StepKeepsAccounted(c, w, e);
      DeadStaysInBudget(c, v, es[1..], cap, deadline);
      BudgetNotNegative(c, v, cap, deadline);
    }
  }

  lemma BudgetNotNegative(c: Config, w: World, cap: nat, deadline: int)
    requires c.threshold >= 1 && c.resetTimeout > 0 && Sound(c, w.breaker, w.now) && |w.inFlight| <= cap
    ensures Left(c, w, cap, deadline) >= 0
  {
  }

  lemma {:induction false} BatchesAreProduct(c: Config, cap: nat, from: int, deadline: int)
    requires c.resetTimeout > 0
    ensures from <= deadline + c.resetTimeout ==>
      Batches(c, cap, from, deadline) == cap * ((deadline - from + c.resetTimeout) / c.resetTimeout)
    decreases if from <= deadline then deadline - from + 1 else 0
  {
    var r := c.resetTimeout;
    if from <= deadline {
      BatchesAreProduct(c, cap, from + r, deadline);
      var k := (deadline - from) / r;
      DivStep(deadline - from, r);
      assert cap + cap * k == cap * (k + 1);
    } else if from <= deadline + r {
      if from == deadline + r { assert 0 / r == 0; }
      DivSmall(deadline - from + r, r);
      assert cap * 0 == 0;
    }
  }

  lemma DivStep(x: int, r: int)
    requires r > 0 && x >= 0
    ensures (x + r) / r == x / r + 1
  {
    var q := x / r;
    assert x == q * r + x % r;
    assert x + r == (q + 1) * r + x % r;
    DivUnique(x + r, r, q + 1, x % r);
  }

  lemma DivUnique(x: int, r: int, q: int, m: int)
    requires r > 0 && 0 <= m < r && x == q * r + m
    ensures x / r == q
  {
    var p := x / r;
    assert x == p * r + x % r;
    assert (p - q) * r == m - x % r && (q - p) * r == x % r - m;
    if p > q {
      AtLeastOnce(p - q, r);
    } else if p < q {
      AtLeastOnce(q - p, r);
    }
  }

  lemma AtLeastOnce(d: int, r: int)
    requires d >= 1 && r > 0
    ensures d * r >= r
  {
    assert (d - 1) * r >= 0;
  }

  lemma DivSmall(x: int, r: int)
    requires 0 <= x < r
    ensures x / r == 0
  {
  }

  /**
   * After any run, if from now on nothing succeeds, the calls admitted within the next T time units
   * number at most threshold - 1 + cap + cap * (T / resetTimeout), cap bounding the calls in flight.
   */
  lemma DeadBackendLoad(c: Config, start: int, before: seq<Event>, es: seq<Event>, cap: nat, span: nat)
    requires c.threshold >= 1 && c.resetTimeout > 0 && Legal(c, Start(start), before)
    requires var w := Run(c, Start(start), before); Legal(c, w, es) && Dead(c, w, es, cap, w.now + span)
    ensures AdmittedIn(c, Run(c, Start(start), before), es) <= c.threshold - 1 + cap + cap * (span / c.resetTimeout)
  {
    var w := Run(c, Start(start), before);
    StartAccounted(start);
    RunKeepsInv(c, Start(start), before);
    RunKeepsAccounted(c, Start(start), before);
    DeadLoadFrom(c, w, es, cap, span);
  }

  /** The batches whose cool-downs end within a span. */
  lemma SpanBatches(c: Config, cap: nat, now: int, span: nat)
    requires c.resetTimeout > 0
    ensures Batches(c, cap, now + c.resetTimeout, now + span) == cap * (span / c.resetTimeout)
  {
    BatchesAreProduct(c, cap, now + c.resetTimeout, now + span);
    assert now + span - (now + c.resetTimeout) + c.resetTimeout == span;
  }

  lemma DeadLoadFrom(c: Config, w: World, es: seq<Event>, cap: nat, span: nat)
    requires c.threshold >= 1 && c.resetTimeout > 0 && Inv(c, w) && Accounted(w)
    requires Legal(c, w, es) && Dead(c, w, es, cap, w.now + span) && |w.inFlight| <= cap
    ensures AdmittedIn(c, w, es) <= c.threshold - 1 + cap + cap * (span / c.resetTimeout)
  {
    DeadStaysInBudget(c, w, es, cap, w.now + span);
    BudgetOfSpan(c, w, cap, span);
  }

  lemma BudgetOfSpan(c: Config, w: World, cap: nat, span: nat)
    requires c.threshold >= 1 && c.resetTimeout > 0 && Sound(c, w.breaker, w.now) && |w.inFlight| <= cap
    ensures 0 <= Left(c, w, cap, w.now + span) <= c.threshold - 1 + cap + cap * (span / c.resetTimeout)
  {
    BudgetBound(c, w, cap, span);
    SpanBatches(c, cap, w.now, span);
  }

  lemma BudgetBound(c: Config, w: World, cap: nat, span: nat)
    requires c.threshold >= 1 && c.resetTimeout > 0 && Sound(c, w.breaker, w.now) && |w.inFlight| <= cap
    ensures 0 <= Left(c, w, cap, w.now + span)
        <= c.threshold - 1 + cap + Batches(c, cap, w.now + c.resetTimeout, w.now + span)
  {
    BudgetNotNegative(c, w, cap, w.now + span);
    if w.breaker.state == OPEN {
      BatchesFall(c, cap, w.now, Max(w.now, w.breaker.lastFailure.value + c.resetTimeout), w.now + span);
    }
  }
}
