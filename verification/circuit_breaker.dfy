/** The per-upstream circuit breaker of `src/circuit_breaker/mod.rs` as explicit
    state transitions over the map of circuits, with the clock `now` in seconds
    (the unit of `recovery_timeout`). Each operation takes the lock for its whole
    body, so it is one atomic step here. */
module CircuitBreaker {
  import opened Wrappers
  import opened Config

  datatype CircuitState = Closed | Open | HalfOpen

  datatype CircuitStats = CircuitStats(
    failureCount: nat,
    successCount: nat,
    lastFailureTime: Option<nat>,
    state: CircuitState,
    nextAttempt: Option<nat>)

  type Circuits = map<string, CircuitStats>

  const Baseline := CircuitStats(0, 0, None, Closed, None)

  /** `circuits.entry(name).or_default()`. */
  function Entry(m: Circuits, name: string): CircuitStats {
    if name in m then m[name] else Baseline
  }

  /** The answer of `can_execute` and the circuits after it. */
  datatype Admission = Admission(allowed: bool, circuits: Circuits)

  /** `can_execute`. Closed and HalfOpen admit; Open admits once its deadline has
      passed, turning HalfOpen with a fresh success count. */
  function CanExecute(cfg: CircuitBreakerConfig, m: Circuits, name: string, now: nat): (r: Admission)
    ensures !cfg.enabled ==> r == Admission(true, m)
    ensures cfg.enabled ==> name in r.circuits && r.circuits.Keys == m.Keys + {name}
    ensures cfg.enabled ==> forall n :: n in m && n != name ==> r.circuits[n] == m[n]
    ensures cfg.enabled && Entry(m, name).state != Open ==> r.allowed && r.circuits[name] == Entry(m, name)
    ensures cfg.enabled && Entry(m, name).state == Open ==>
              (r.allowed <==> Entry(m, name).nextAttempt.Some? && now >= Entry(m, name).nextAttempt.value)
    ensures cfg.enabled && Entry(m, name).state == Open && r.allowed ==>
              r.circuits[name] == Entry(m, name).(state := HalfOpen, successCount := 0)
    ensures cfg.enabled && Entry(m, name).state == Open && !r.allowed ==> r.circuits[name] == Entry(m, name)
  {
    if !cfg.enabled then Admission(true, m)
    else
      var s := Entry(m, name);
      match s.state
      case Closed => Admission(true, m[name := s])
      case HalfOpen => Admission(true, m[name := s])
      case Open =>
        match s.nextAttempt
        case Some(t) =>
          if now >= t then Admission(true, m[name := s.(state := HalfOpen, successCount := 0)])
          else Admission(false, m[name := s])
        case None => Admission(false, m[name := s])
  }

  /** The effect of one success on a circuit's statistics. */
  function Succeed(cfg: CircuitBreakerConfig, s: CircuitStats): CircuitStats {
    match s.state
    case Closed => s.(failureCount := 0)
    case HalfOpen =>
      if s.successCount + 1 >= cfg.successThreshold then
        s.(state := Closed, failureCount := 0, successCount := 0, nextAttempt := None)
      else s.(successCount := s.successCount + 1)
    case Open => s
  }

  /** `record_success`. */
  function RecordSuccess(cfg: CircuitBreakerConfig, m: Circuits, name: string): (r: Circuits)
    ensures !cfg.enabled ==> r == m
    ensures cfg.enabled ==> r == m[name := Succeed(cfg, Entry(m, name))]
  {
    if !cfg.enabled then m else m[name := Succeed(cfg, Entry(m, name))]
  }

  /** The effect of one failure at `now`: the count grows and the time is stamped
      in every state; Closed opens at the threshold, HalfOpen reopens, and Open
      re-arms its deadline. */
  function Fail(cfg: CircuitBreakerConfig, s: CircuitStats, now: nat): CircuitStats {
    var f := s.(failureCount := s.failureCount + 1, lastFailureTime := Some(now));
    match s.state
    case Closed =>
      if f.failureCount >= cfg.failureThreshold then f.(state := Open, nextAttempt := Some(now + cfg.recoveryTimeout))
      else f
    case HalfOpen => f.(state := Open, successCount := 0, nextAttempt := Some(now + cfg.recoveryTimeout))
    case Open => f.(nextAttempt := Some(now + cfg.recoveryTimeout))
  }

  /** `record_failure`. */
  function RecordFailure(cfg: CircuitBreakerConfig, m: Circuits, name: string, now: nat): (r: Circuits)
    ensures !cfg.enabled ==> r == m
    ensures cfg.enabled ==> r == m[name := Fail(cfg, Entry(m, name), now)]
  {
    if !cfg.enabled then m else m[name := Fail(cfg, Entry(m, name), now)]
  }

  /** `get_state`: Closed when disabled or for a circuit never touched. */
  function GetState(cfg: CircuitBreakerConfig, m: Circuits, name: string): (st: CircuitState)
    ensures !cfg.enabled ==> st == Closed
    ensures cfg.enabled && name !in m ==> st == Closed
    ensures cfg.enabled && name in m ==> st == m[name].state
  {
    if !cfg.enabled then Closed else Entry(m, name).state
  }

  /** `get_all_stats`: state and both counters of every circuit. */
  function AllStats(m: Circuits): (r: map<string, (CircuitState, nat, nat)>)
    ensures r.Keys == m.Keys
    ensures forall n :: n in r ==> r[n] == (m[n].state, m[n].failureCount, m[n].successCount)
  {
    map n | n in m :: (m[n].state, m[n].failureCount, m[n].successCount)
  }

  /** `reset`: an existing circuit goes back to the baseline; an unknown name is
      left unknown. It applies whether or not the breaker is enabled. */
  function Reset(m: Circuits, name: string): (r: Circuits)
    ensures r.Keys == m.Keys
    ensures name in m ==> r[name] == Baseline
    ensures forall n :: n in m && n != name ==> r[n] == m[n]
  {
    if name in m then m[name := Baseline] else m
  }

  /** `force_open`: the circuit (created if missing) opens with a fresh deadline;
      its counters are left as they were. It applies whether or not the breaker
      is enabled. */
  function ForceOpen(cfg: CircuitBreakerConfig, m: Circuits, name: string, now: nat): (r: Circuits)
    ensures r.Keys == m.Keys + {name}
    ensures r[name].state == Open && r[name].nextAttempt == Some(now + cfg.recoveryTimeout)
    ensures r[name].failureCount == Entry(m, name).failureCount
    ensures r[name].successCount == Entry(m, name).successCount
    ensures r[name].lastFailureTime == Entry(m, name).lastFailureTime
    ensures forall n :: n in m && n != name ==> r[n] == m[n]
  {
    m[name := Entry(m, name).(state := Open, nextAttempt := Some(now + cfg.recoveryTimeout))]
  }

  /* ---------------- invariant ---------------- */

  /** What every reachable circuit satisfies: Open and HalfOpen carry a deadline,
      and Closed has no deadline and no pending successes. */
  predicate Consistent(s: CircuitStats) {
    && (s.state == Open ==> s.nextAttempt.Some?)
    && (s.state == HalfOpen ==> s.nextAttempt.Some?)
    && (s.state == Closed ==> s.nextAttempt.None? && s.successCount == 0)
  }

  predicate AllConsistent(m: Circuits) {
    forall n :: n in m ==> Consistent(m[n])
  }

  lemma SucceedKeeps(cfg: CircuitBreakerConfig, s: CircuitStats)
    requires Consistent(s)
    ensures Consistent(Succeed(cfg, s))
  {
  }

  lemma FailKeeps(cfg: CircuitBreakerConfig, s: CircuitStats, now: nat)
    requires Consistent(s)
    ensures Consistent(Fail(cfg, s, now))
  {
  }

  /** Every operation keeps every circuit consistent. */
  lemma OperationsKeepConsistent(cfg: CircuitBreakerConfig, m: Circuits, name: string, now: nat)
    requires AllConsistent(m)
    ensures AllConsistent(CanExecute(cfg, m, name, now).circuits)
    ensures AllConsistent(RecordSuccess(cfg, m, name))
    ensures AllConsistent(RecordFailure(cfg, m, name, now))
    ensures AllConsistent(Reset(m, name))
    ensures AllConsistent(ForceOpen(cfg, m, name, now))
  {
    assert Consistent(Entry(m, name));
    SucceedKeeps(cfg, Entry(m, name));
    FailKeeps(cfg, Entry(m, name), now);
  }

  /** Hence `can_execute` never reaches its branch for an Open circuit without a
      deadline: an Open circuit is refused exactly until its deadline. */
  lemma OpenRefusedUntilDeadline(cfg: CircuitBreakerConfig, m: Circuits, name: string, now: nat)
    requires cfg.enabled && AllConsistent(m) && name in m && m[name].state == Open
    ensures m[name].nextAttempt.Some?
    ensures CanExecute(cfg, m, name, now).allowed <==> now >= m[name].nextAttempt.value
  {
  }

  /** In Closed, failures below the threshold leave the circuit Closed, and the
      failure that reaches the threshold opens it. */
  lemma ClosedOpensAtThreshold(cfg: CircuitBreakerConfig, s: CircuitStats, now: nat)
    requires s.state == Closed
    ensures Fail(cfg, s, now).failureCount == s.failureCount + 1
    ensures Fail(cfg, s, now).state == Open <==> s.failureCount + 1 >= cfg.failureThreshold
    ensures Fail(cfg, s, now).state == Open ==> Fail(cfg, s, now).nextAttempt == Some(now + cfg.recoveryTimeout)
  {
  }

  /** In HalfOpen, the success that reaches the threshold closes the circuit. */
  lemma HalfOpenClosesAtThreshold(cfg: CircuitBreakerConfig, s: CircuitStats)
    requires s.state == HalfOpen
    ensures Succeed(cfg, s).state == Closed <==> s.successCount + 1 >= cfg.successThreshold
    ensures Succeed(cfg, s).state == Closed ==> Succeed(cfg, s) == s.(state := Closed, failureCount := 0, successCount := 0, nextAttempt := None)
    ensures Succeed(cfg, s).state != Closed ==> Succeed(cfg, s) == s.(successCount := s.successCount + 1)
  {
  }

  /* ---------------- the unit tests, as lemmas ---------------- */

  /** Three failures open the circuit; after the recovery timeout one admission
      turns it HalfOpen, and two successes close it. */
  lemma TransitionsScenario(t: nat)
    ensures var cfg := CircuitBreakerConfig(true, 3, 1, 2);
      var name := "test_upstream";
      var m0: Circuits := map[];
      && GetState(cfg, m0, name) == Closed
      && CanExecute(cfg, m0, name, t).allowed
      && var m1 := CanExecute(cfg, m0, name, t).circuits;
      && var m2 := RecordFailure(cfg, m1, name, t);
      && GetState(cfg, m2, name) == Closed
      && var m3 := RecordFailure(cfg, m2, name, t);
      && GetState(cfg, m3, name) == Closed
      && var m4 := RecordFailure(cfg, m3, name, t);
      && GetState(cfg, m4, name) == Open
      && !CanExecute(cfg, m4, name, t).allowed
      && var m5 := CanExecute(cfg, m4, name, t).circuits;
      && CanExecute(cfg, m5, name, t + 2).allowed
      && var m6 := CanExecute(cfg, m5, name, t + 2).circuits;
      && GetState(cfg, m6, name) == HalfOpen
      && var m7 := RecordSuccess(cfg, m6, name);
      && GetState(cfg, m7, name) == HalfOpen
      && GetState(cfg, RecordSuccess(cfg, m7, name), name) == Closed
  {
  }

  /** A disabled breaker stays Closed and admitting whatever is recorded. */
  lemma DisabledScenario(m: Circuits, name: string, now: nat)
    ensures var cfg := CircuitBreakerConfig(false, 1, 1, 1);
      var m3 := RecordFailure(cfg, RecordFailure(cfg, RecordFailure(cfg, m, name, now), name, now), name, now);
      && m3 == m
      && GetState(cfg, m3, name) == Closed
      && CanExecute(cfg, m3, name, now).allowed
  {
  }
}
