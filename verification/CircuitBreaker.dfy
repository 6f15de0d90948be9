/** The gateway's circuit breaker: the value it computes on, and the service object that holds it. */
module CircuitBreaker {
  import opened Wrappers

  datatype State = CLOSED | OPEN | HALF_OPEN

  datatype Config = Config(threshold: int, resetTimeout: int)

  datatype Breaker = Breaker(state: State, failures: nat, lastFailure: Option<int>)

  const FRESH := Breaker(CLOSED, 0, None)

  /** An open breaker may try again; a recorded time of 0 counts as no time at all. */
  predicate Cooled(c: Config, b: Breaker, now: int) {
    b.lastFailure.Some? && b.lastFailure.value != 0 && now - b.lastFailure.value >= c.resetTimeout
  }

  function Asked(c: Config, b: Breaker, now: int): (Breaker, bool) {
    match b.state
    case CLOSED => (b, true)
    case OPEN => if Cooled(c, b, now) then (b.(state := HALF_OPEN), true) else (b, false)
    case HALF_OPEN => (b, true)
  }

  function AfterFailure(c: Config, b: Breaker, now: int): Breaker {
    Breaker(if b.state == HALF_OPEN || b.failures + 1 >= c.threshold then OPEN else b.state, b.failures + 1, Some(now))
  }

  /** A failure recorded at time 0 keeps an open breaker open whatever the time; any other lets it cool. */
  lemma ZeroNeverCools(c: Config, failures: nat, failed: int, now: int)
    requires now - failed >= c.resetTimeout
    ensures Asked(c, Breaker(OPEN, failures, Some(failed)), now).1 <==> failed != 0
  {
  }

  class CircuitBreakerService {
    var state: State
    var failureCount: nat
    var lastFailureTime: Option<int>
    const config: Config

    constructor (config: Config)
      ensures this.config == config && Value() == FRESH
    {
      this.config := config;
      state, failureCount, lastFailureTime := CLOSED, 0, None;
    }

    function Value(): Breaker
      reads this
    {
      Breaker(state, failureCount, lastFailureTime)
    }

    method CanExecute(now: int) returns (ok: bool)
      modifies this
      ensures (Value(), ok) == Asked(config, old(Value()), now)
    {
      if state == CLOSED {
        return true;
      }
      if state == OPEN {
        if lastFailureTime.Some? && lastFailureTime.value != 0 && now - lastFailureTime.value >= config.resetTimeout {
          state := HALF_OPEN;
          return true;
        }
        return false;
      }
      return true;
    }

    method RecordSuccess()
      modifies this
      ensures Value() == FRESH
    {
      state := CLOSED;
      failureCount := 0;
      lastFailureTime := None;
    }

    method RecordFailure(now: int)
      modifies this
      ensures Value() == AfterFailure(config, old(Value()), now)
    {
      failureCount := failureCount + 1;
      lastFailureTime := Some(now);
      if state == HALF_OPEN || failureCount >= config.threshold {
        state := OPEN;
      }
    }
  }
}
