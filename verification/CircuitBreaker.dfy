/** The circuit breaker in local mode: calls are sequential, the clock never goes
    back, and the clock reading of each operation is its argument. */
module CircuitBreaker {
  import opened Wrappers

  datatype Config = Config(failureThreshold: nat, openSeconds: nat, halfOpenTrials: nat)

  datatype Mode = Closed | HalfOpen | Open

  datatype State = State(mode: Mode, failures: nat, openedAt: Option<real>, halfOpenTrials: nat)

  const START := State(Closed, 0, None, 0)

  function Transition(target: Mode, now: real): State {
    State(target, 0, if target.Open? then Some(now) else None, 0)
  }

  // --------------------------------------------------- one operation, as a function

  datatype Op = BeforeCall(now: real) | RecordSuccess(now: real) | RecordFailure(now: real)

  predicate Elapsed(s: State, config: Config, now: real) {
    s.openedAt.Some? && now - s.openedAt.value >= config.openSeconds as real
  }

  /** Does `before_call` let the call through? */
  predicate Admitted(s: State, config: Config, op: Op) {
    op.BeforeCall? &&
    match s.mode
    case Closed => true
    case HalfOpen => s.halfOpenTrials < config.halfOpenTrials
    case Open => Elapsed(s, config, op.now) && 0 < config.halfOpenTrials
  }

  function Next(s: State, config: Config, op: Op): State {
    match op
    case BeforeCall(now) =>
      var s' := if s.mode.Open? && Elapsed(s, config, now) then Transition(HalfOpen, now) else s;
      if Admitted(s, config, op) && s'.mode.HalfOpen? then s'.(halfOpenTrials := s'.halfOpenTrials + 1) else s'
    case RecordSuccess(now) =>
      if s.mode.Closed? then s.(failures := 0, halfOpenTrials := 0) else Transition(Closed, now)
    case RecordFailure(now) =>
      if s.mode.HalfOpen? || s.failures + 1 >= config.failureThreshold then Transition(Open, now)
      else s.(failures := s.failures + 1)
  }

  class CircuitBreaker {
    const config: Config
    var mode: Mode
    var failures: nat
    var openedAt: Option<real>
    var halfOpenTrials: nat

    constructor (config: Config)
      ensures this.config == config && Current() == START
    {
      this.config := config;
      mode, failures, openedAt, halfOpenTrials := Closed, 0, None, 0;
    }

    function Current(): State
      reads this
    {
      State(mode, failures, openedAt, halfOpenTrials)
    }

    method TransitionTo(target: Mode, now: real)
      modifies this
      ensures Current() == Transition(target, now)
    {
      mode, failures, halfOpenTrials := target, 0, 0;
      openedAt := if target == Open then Some(now) else None;
    }

    method BeforeCall(now: real) returns (admitted: bool)
      modifies this
      ensures admitted == Admitted(old(Current()), config, Op.BeforeCall(now))
      ensures Current() == Next(old(Current()), config, Op.BeforeCall(now))
    {
      if mode == Open {
        if openedAt.Some? && now - openedAt.value >= config.openSeconds as real {
          TransitionTo(HalfOpen, now);
        } else {
          return false;
        }
      }
      if mode == HalfOpen {
        if halfOpenTrials >= config.halfOpenTrials {
          return false;
        }
        halfOpenTrials := halfOpenTrials + 1;
      }
      return true;
    }

    method RecordSuccess(now: real)
      modifies this
      ensures Current() == Next(old(Current()), config, Op.RecordSuccess(now))
    {
      if mode != Closed {
        TransitionTo(Closed, now);
      } else {
        failures := 0;
        halfOpenTrials := 0;
      }
    }

    method RecordFailure(now: real)
      modifies this
      ensures Current() == Next(old(Current()), config, Op.RecordFailure(now))
    {
      if mode == HalfOpen {
        TransitionTo(Open, now);
        return;
      }
      var count := failures + 1;
      if count >= config.failureThreshold {
        TransitionTo(Open, now);
      } else {
        failures := count;
      }
    }
  }

  // -------------------------------------------------------------------------- runs

  function Run(s: State, config: Config, ops: seq<Op>): State
    decreases |ops|
  {
    if ops == [] then s else Next(Run(s, config, ops[..|ops| - 1]), config, ops[|ops| - 1])
  }

  function Admissions(s: State, config: Config, ops: seq<Op>): nat
    decreases |ops|
  {
    if ops == [] then 0
    else (if Admitted(s, config, ops[0]) then 1 else 0) + Admissions(Next(s, config, ops[0]), config, ops[1..])
  }

  /** Failures recorded since the last recorded success. */
  function FailuresSinceSuccess(ops: seq<Op>): nat
    decreases |ops|
  {
    if ops == [] then 0
    else match ops[|ops| - 1]
      case RecordSuccess(_) => 0
      case RecordFailure(_) => FailuresSinceSuccess(ops[..|ops| - 1]) + 1
      case BeforeCall(_) => FailuresSinceSuccess(ops[..|ops| - 1])
  }

  /** A breaker is closed exactly when fewer than the threshold of failures have been
      recorded since the last success, however many calls were let through or turned
      away and wherever the open and half-open stretches fell; and while it is closed
      its counter is that number of failures. */
  lemma {:induction false} ClosedExactlyBelowThreshold(config: Config, ops: seq<Op>)
    requires config.failureThreshold >= 1
    ensures var s := Run(START, config, ops);
            && (s.mode.Closed? <==> FailuresSinceSuccess(ops) < config.failureThreshold)
            && (s.mode.Closed? ==> s.failures == FailuresSinceSuccess(ops) && s.openedAt == None)
    decreases |ops|
  {
    if ops != [] {
      ClosedExactlyBelowThreshold(config, ops[..|ops| - 1]);
    }
  }

  /** The step that opens a closed breaker is the threshold-th failure in a row. */
  lemma OpensAtThresholdFailure(config: Config, ops: seq<Op>, op: Op)
    requires config.failureThreshold >= 1 && Run(START, config, ops).mode.Closed?
    ensures Run(START, config, ops + [op]).mode.Open?
       <==> op.RecordFailure? && FailuresSinceSuccess(ops) + 1 == config.failureThreshold
  {
    ClosedExactlyBelowThreshold(config, ops);
    assert (ops + [op])[..|ops + [op]| - 1] == ops;
  }

  // -------------------------------------------------------------------- the rate bound

  ghost predicate Quiet(t: real, ops: seq<Op>) {
    && (forall i | 0 <= i < |ops| :: !ops[i].RecordSuccess? && t <= ops[i].now)
    && (forall i, j | 0 <= i < j < |ops| :: ops[i].now <= ops[j].now)
  }

  function Windows(from: real, to: real, config: Config): nat
    requires config.openSeconds > 0 && from <= to
  {
    ((to - from) / config.openSeconds as real).Floor
  }

  /** Calls a breaker that is not closed may still admit by time `to`. */
  ghost function Allowance(s: State, t: real, to: real, config: Config): int
    requires config.openSeconds > 0 && !s.mode.Closed? && t <= to
    requires s.mode.Open? ==> s.openedAt.Some? && s.openedAt.value <= to
  {
    if s.mode.Open? then config.halfOpenTrials * Windows(s.openedAt.value, to, config)
    else config.halfOpenTrials - s.halfOpenTrials + config.halfOpenTrials * Windows(t, to, config)
  }

  ghost predicate Tripped(s: State, t: real, config: Config) {
    && !s.mode.Closed?
    && (s.mode.Open? ==> s.openedAt.Some? && s.openedAt.value <= t)
    && (s.mode.HalfOpen? ==> s.halfOpenTrials <= config.halfOpenTrials)
  }

  lemma DivMonotone(x: real, y: real, z: real)
    requires x <= y && 0.0 < z
    ensures x / z <= y / z
  {
    assert y / z - x / z == (y - x) / z;
  }

  lemma DivAdd(x: real, z: real)
    requires 0.0 < z
    ensures (x + z) / z == x / z + 1.0
  {
    assert z / z == 1.0;
    assert (x + z) / z == x / z + z / z;
  }

  lemma WindowsShrink(from: real, from': real, to: real, config: Config)
    requires config.openSeconds > 0 && from <= from' <= to
    ensures Windows(from', to, config) <= Windows(from, to, config)
    ensures from' - from >= config.openSeconds as real ==> Windows(from', to, config) + 1 <= Windows(from, to, config)
  {
    var z := config.openSeconds as real;
    DivMonotone(to - from', to - from, z);
    if from' - from >= z {
      DivMonotone(to - from' + z, to - from, z);
      DivAdd(to - from', z);
    }
  }

  lemma MulMonotone(x: nat, y: int, z: int)
    requires y <= z
    ensures x * y <= x * z
  {
  }

  lemma StepSpendsAllowance(s: State, t: real, op: Op, to: real, config: Config)
    requires config.openSeconds > 0 && Tripped(s, t, config) && t <= op.now <= to && !op.RecordSuccess?
    ensures Tripped(Next(s, config, op), op.now, config)
    ensures (if Admitted(s, config, op) then 1 else 0) + Allowance(Next(s, config, op), op.now, to, config)
         <= Allowance(s, t, to, config)
  {
    var h := config.halfOpenTrials;
    WindowsShrink(t, op.now, to, config);
    MulMonotone(h, Windows(op.now, to, config), Windows(t, to, config));
    if s.mode.Open? {
      WindowsShrink(s.openedAt.value, op.now, to, config);
      MulMonotone(h, Windows(op.now, to, config), Windows(s.openedAt.value, to, config));
      if Elapsed(s, config, op.now) {
        MulMonotone(h, Windows(op.now, to, config) + 1, Windows(s.openedAt.value, to, config));
        assert h * (Windows(op.now, to, config) + 1) == h * Windows(op.now, to, config) + h;
      }
    }
  }

  lemma {:induction false} AllowanceCovers(s: State, t: real, ops: seq<Op>, to: real, config: Config)
    requires config.openSeconds > 0 && Tripped(s, t, config) && Quiet(t, ops) && t <= to
    requires forall i | 0 <= i < |ops| :: ops[i].now <= to
    ensures Admissions(s, config, ops) <= Allowance(s, t, to, config)
    decreases |ops|
  {
    if ops == [] {
      if s.mode.Open? {
        MulMonotone(config.halfOpenTrials, 0, Windows(s.openedAt.value, to, config));
      } else {
        MulMonotone(config.halfOpenTrials, 0, Windows(t, to, config));
      }
    } else {
      StepSpendsAllowance(s, t, ops[0], to, config);
      AllowanceCovers(Next(s, config, ops[0]), ops[0].now, ops[1..], to, config);
    }
  }

  /** The rate bound: from an opening at time `t0`, and for as long as no success is
      recorded, at most `halfOpenTrials` calls are admitted for every full
      `openSeconds` gone by, whatever failures are recorded meanwhile. */
  lemma OpenBreakerRateBound(s: State, t0: real, ops: seq<Op>, length: real, config: Config)
    requires config.openSeconds > 0 && s == Transition(Open, t0) && Quiet(t0, ops) && length >= 0.0
    requires forall i | 0 <= i < |ops| :: ops[i].now <= t0 + length
    ensures Admissions(s, config, ops)
         <= config.halfOpenTrials * (length / config.openSeconds as real).Floor
  {
    AllowanceCovers(s, t0, ops, t0 + length, config);
  }

  /** Every state that a run leaves open or half-open is one the rate bound covers. */
  lemma {:induction false} ReachedStatesAreCovered(config: Config, ops: seq<Op>, t: real)
    requires forall i, j | 0 <= i < j < |ops| :: ops[i].now <= ops[j].now
    requires forall i | 0 <= i < |ops| :: ops[i].now <= t
    ensures var s := Run(START, config, ops); s.mode.Closed? || Tripped(s, t, config)
    decreases |ops|
  {
    if ops != [] {
      ReachedStatesAreCovered(config, ops[..|ops| - 1], ops[|ops| - 1].now);
    }
  }

  /** In any stretch at all without a success, starting from any state a run can leave
      the breaker in once it has tripped, one more round of trials covers what was
      already under way. */
  lemma AnyStretchRateBound(config: Config, before: seq<Op>, ops: seq<Op>, t: real, length: real)
    requires config.openSeconds > 0 && length >= 0.0
    requires forall i, j | 0 <= i < j < |before| :: before[i].now <= before[j].now
    requires forall i | 0 <= i < |before| :: before[i].now <= t
    requires !Run(START, config, before).mode.Closed?
    requires Quiet(t, ops) && forall i | 0 <= i < |ops| :: ops[i].now <= t + length
    ensures Admissions(Run(START, config, before), config, ops)
         <= config.halfOpenTrials * ((length / config.openSeconds as real).Floor + 1)
  {
    ReachedStatesAreCovered(config, before, t);
    TrippedRateBound(Run(START, config, before), t, ops, t + length, config);
    assert Windows(t, t + length, config) == (length / config.openSeconds as real).Floor;
  }

  lemma TrippedRateBound(s: State, t: real, ops: seq<Op>, to: real, config: Config)
    requires config.openSeconds > 0 && t <= to && Tripped(s, t, config) && Quiet(t, ops)
    requires forall i | 0 <= i < |ops| :: ops[i].now <= to
    ensures Admissions(s, config, ops) <= config.halfOpenTrials * (Windows(t, to, config) + 1)
  {
    if s.mode.Open? {
      OpenStretch(s, t, ops, to, config);
    } else {
      AllowanceCovers(s, t, ops, to, config);
      Distribute(config.halfOpenTrials, Windows(t, to, config));
    }
  }

  lemma Distribute(h: nat, n: nat)
    ensures h * (n + 1) == h * n + h
  {
  }

  /** Each round of trials begins an `openSeconds` after the one before; the first may
      begin at once if the breaker has been open long enough. */
  lemma {:induction false} OpenStretch(s: State, t: real, ops: seq<Op>, to: real, config: Config)
    requires config.openSeconds > 0 && Tripped(s, t, config) && s.mode.Open? && Quiet(t, ops) && t <= to
    requires forall i | 0 <= i < |ops| :: ops[i].now <= to
    ensures Admissions(s, config, ops) <= config.halfOpenTrials * (Windows(t, to, config) + 1)
    decreases |ops|
  {
    var h := config.halfOpenTrials;
    MulMonotone(h, 0, Windows(t, to, config) + 1);
    if ops != [] {
      var op, s' := ops[0], Next(s, config, ops[0]);
      StepSpendsAllowance(s, t, op, to, config);
      WindowsShrink(t, op.now, to, config);
      if s'.mode.Open? {
        OpenStretch(s', op.now, ops[1..], to, config);
        MulMonotone(h, Windows(op.now, to, config) + 1, Windows(t, to, config) + 1);
      } else {
        AllowanceCovers(s', op.now, ops[1..], to, config);
        MulMonotone(h, Windows(op.now, to, config), Windows(t, to, config));
        Distribute(h, Windows(t, to, config));
      }
    }
  }

  // ------------------------------------------------------------------ who is let through

  /** Calls alone, at times that never go back. */
  ghost predicate CallsInTime(ops: seq<Op>) {
    && (forall i | 0 <= i < |ops| :: ops[i].BeforeCall?)
    && (forall i, j | 0 <= i < j < |ops| :: ops[i].now <= ops[j].now)
  }

  /** How many of the operations come no earlier than `from`. */
  function NotBefore(ops: seq<Op>, from: real): nat {
    if ops == [] then 0 else (if ops[0].now >= from then 1 else 0) + NotBefore(ops[1..], from)
  }

  function Lesser(x: nat, y: nat): nat {
    if x <= y then x else y
  }

  lemma {:induction false} AllNotBefore(ops: seq<Op>, from: real)
    requires forall i | 0 <= i < |ops| :: ops[i].now >= from
    ensures NotBefore(ops, from) == |ops|
  {
    if ops != [] {
      assert forall i | 0 <= i < |ops| - 1 :: ops[1..][i] == ops[i + 1];
      AllNotBefore(ops[1..], from);
    }
  }

  /** A half-open breaker lets through what is left of its trials. */
  lemma {:induction false} HalfOpenAdmitsTrials(config: Config, used: nat, openedAt: Option<real>, failures: nat, ops: seq<Op>)
    requires CallsInTime(ops) && used <= config.halfOpenTrials
    ensures Admissions(State(HalfOpen, failures, openedAt, used), config, ops)
         == Lesser(|ops|, config.halfOpenTrials - used)
    decreases |ops|
  {
    if ops != [] {
      assert forall i | 0 <= i < |ops| - 1 :: ops[1..][i] == ops[i + 1];
      HalfOpenAdmitsTrials(config, if used < config.halfOpenTrials then used + 1 else used, openedAt, failures, ops[1..]);
    }
  }

  /** From an opening at `t0` on, exactly the calls that come `openSeconds` later or more are
      let through, whenever that is, up to as many as there are trials. */
  lemma {:induction false} OpenAdmitsExactlyLateTrials(config: Config, t0: real, ops: seq<Op>)
    requires CallsInTime(ops)
    ensures Admissions(State(Open, 0, Some(t0), 0), config, ops)
         == Lesser(NotBefore(ops, t0 + config.openSeconds as real), config.halfOpenTrials)
    decreases |ops|
  {
    if ops != [] {
      assert forall i | 0 <= i < |ops| - 1 :: ops[1..][i] == ops[i + 1];
      if ops[0].now < t0 + config.openSeconds as real {
        OpenAdmitsExactlyLateTrials(config, t0, ops[1..]);
      } else {
        AllNotBefore(ops, t0 + config.openSeconds as real);
        HalfOpenAdmitsTrials(config, if config.halfOpenTrials > 0 then 1 else 0, None, 0, ops[1..]);
      }
    }
  }

  /** In particular `n` calls at one time. */
  lemma OpenAdmitsAtOnce(config: Config, t0: real, t: real, n: nat)
    ensures Admissions(State(Open, 0, Some(t0), 0), config, Calls(n, t))
         == if t >= t0 + config.openSeconds as real then Lesser(n, config.halfOpenTrials) else 0
  {
    OpenAdmitsExactlyLateTrials(config, t0, Calls(n, t));
    if t >= t0 + config.openSeconds as real {
      AllNotBefore(Calls(n, t), t0 + config.openSeconds as real);
    } else {
      NoneNotBefore(Calls(n, t), t0 + config.openSeconds as real);
    }
  }

  lemma {:induction false} NoneNotBefore(ops: seq<Op>, from: real)
    requires forall i | 0 <= i < |ops| :: ops[i].now < from
    ensures NotBefore(ops, from) == 0
  {
    if ops != [] {
      assert forall i | 0 <= i < |ops| - 1 :: ops[1..][i] == ops[i + 1];
      NoneNotBefore(ops[1..], from);
    }
  }

  /** A failure reported from half-open opens the breaker at that instant, so that the wait
      and the trials begin again; a success reported there lets every call through. */
  lemma ReportFromHalfOpen(config: Config, s: State, t: real, ops: seq<Op>)
    requires s.mode.HalfOpen? && CallsInTime(ops)
    ensures Next(s, config, RecordFailure(t)) == State(Open, 0, Some(t), 0)
    ensures Admissions(Next(s, config, RecordFailure(t)), config, ops)
         == Lesser(NotBefore(ops, t + config.openSeconds as real), config.halfOpenTrials)
    ensures Next(s, config, RecordSuccess(t)) == State(Closed, 0, None, 0)
    ensures Admissions(Next(s, config, RecordSuccess(t)), config, ops) == |ops|
  {
    OpenAdmitsExactlyLateTrials(config, t, ops);
    ClosedAdmitsAll(config, 0, None, 0, ops);
  }

  /** A reported success leaves a closed breaker with nothing counted, whatever came before;
      one failure then opens it only at a threshold of one. */
  lemma SuccessClears(config: Config, s: State, t: real, t': real)
    requires config.failureThreshold >= 1
    ensures var cleared := Next(s, config, RecordSuccess(t));
            && cleared == State(Closed, 0, if s.mode.Closed? then s.openedAt else None, 0)
            && (Next(cleared, config, RecordFailure(t')).mode.Open? <==> config.failureThreshold == 1)
  {
  }

  lemma {:induction false} ClosedAdmitsAll(config: Config, failures: nat, openedAt: Option<real>, trials: nat, ops: seq<Op>)
    requires CallsInTime(ops)
    ensures Admissions(State(Closed, failures, openedAt, trials), config, ops) == |ops|
    decreases |ops|
  {
    if ops != [] {
      assert forall i | 0 <= i < |ops| - 1 :: ops[1..][i] == ops[i + 1];
      ClosedAdmitsAll(config, failures, openedAt, trials, ops[1..]);
    }
  }

  // ------------------------------------------------------------------------- starvation

  /** Nothing but a recorded result can let another call through. */
  predicate Spent(s: State, config: Config) {
    || (s.mode.HalfOpen? && s.halfOpenTrials >= config.halfOpenTrials)
    || (s.mode.Open? && (s.openedAt == None || config.halfOpenTrials == 0))
  }

  ghost predicate OnlyCalls(ops: seq<Op>) {
    forall i | 0 <= i < |ops| :: ops[i].BeforeCall?
  }

  lemma {:induction false} SpentAdmitsNone(s: State, config: Config, ops: seq<Op>)
    requires Spent(s, config) && OnlyCalls(ops)
    ensures Admissions(s, config, ops) == 0
    decreases |ops|
  {
    if ops != [] {
      assert Spent(Next(s, config, ops[0]), config);
      SpentAdmitsNone(Next(s, config, ops[0]), config, ops[1..]);
    }
  }

  /** Calls alone, at whatever times, are refused for ever exactly when the trials of a
      half-open stretch are spent, or the breaker is open without an opening time or with
      no trials to give. */
  lemma StarvesExactlyWhenSpent(s: State, config: Config)
    ensures (forall ops: seq<Op> | OnlyCalls(ops) :: Admissions(s, config, ops) == 0) <==> Spent(s, config)
  {
    if Spent(s, config) {
      forall ops: seq<Op> | OnlyCalls(ops) ensures Admissions(s, config, ops) == 0 {
        SpentAdmitsNone(s, config, ops);
      }
    } else {
      var now := if s.openedAt.Some? then s.openedAt.value + config.openSeconds as real else 0.0;
      var call := Op.BeforeCall(now);
      assert Admitted(s, config, call);
      assert OnlyCalls([call]) && Admissions(s, config, [call]) >= 1;
    }
  }

  lemma {:induction false} RunJoins(s: State, config: Config, first: seq<Op>, rest: seq<Op>)
    ensures Run(s, config, first + rest) == Run(Run(s, config, first), config, rest)
    decreases |rest|
  {
    if rest == [] {
      assert first + rest == first;
    } else {
      var n := |rest| - 1;
      RunJoins(s, config, first, rest[..n]);
      assert (first + rest)[..|first + rest| - 1] == first + rest[..n];
    }
  }

  function Failures(n: nat, now: real): seq<Op> {
    seq(n, _ => RecordFailure(now))
  }

  function Calls(n: nat, now: real): seq<Op> {
    seq(n, _ => Op.BeforeCall(now))
  }

  lemma {:induction false} FailuresOpen(config: Config, n: nat, now: real)
    requires config.failureThreshold >= 1 && n <= config.failureThreshold
    ensures Run(START, config, Failures(n, now))
         == if n == config.failureThreshold then Transition(Open, now) else START.(failures := n)
  {
    if n > 0 {
      FailuresOpen(config, n - 1, now);
      assert Failures(n, now)[..n - 1] == Failures(n - 1, now);
    }
  }

  lemma {:induction false} CallsSpendTrials(config: Config, since: real, n: nat)
    requires 1 <= n <= config.halfOpenTrials
    ensures Run(Transition(Open, since), config, Calls(n, since + config.openSeconds as real))
         == State(HalfOpen, 0, None, n)
  {
    var now := since + config.openSeconds as real;
    assert Calls(n, now)[..n - 1] == Calls(n - 1, now);
    if n == 1 {
      assert Calls(0, now) == [];
    } else {
      CallsSpendTrials(config, since, n - 1);
    }
  }

  /** Such a state is reached: a threshold of failures, a wait of `openSeconds`, and as
      many calls as there are trials, none of which reports back. From then on calls
      alone are refused for ever. */
  lemma UnreportedTrialsStarve(config: Config, now: real, ops: seq<Op>)
    requires config.failureThreshold >= 1 && config.halfOpenTrials >= 1 && OnlyCalls(ops)
    ensures var lost := Run(START, config, Failures(config.failureThreshold, now)
                                           + Calls(config.halfOpenTrials, now + config.openSeconds as real));
            lost == State(HalfOpen, 0, None, config.halfOpenTrials) && Admissions(lost, config, ops) == 0
  {
    FailuresOpen(config, config.failureThreshold, now);
    CallsSpendTrials(config, now, config.halfOpenTrials);
    RunJoins(START, config, Failures(config.failureThreshold, now),
             Calls(config.halfOpenTrials, now + config.openSeconds as real));
    SpentAdmitsNone(State(HalfOpen, 0, None, config.halfOpenTrials), config, ops);
  }
}
