/** What holds over every run of the failover control plane, commit by commit: promotions
    and rollbacks of any instances one at a time under the lock, each of which may die after
    any of its commits, and tokens issued and the freeze toggled at any moment between. */
module FailoverRuns {
  import opened Wrappers
  import opened Failover

  datatype Step =
    | Other(x: Interruption)
    | StartPromotion(q: PromoteRequest)
    | StartRollback(r: RollbackRequest)
    | Continue
    | Die

  /** The token a step uses up; an operation gets one only while nobody has the lock. */
  function TokenUsed(m: Machine, hash: Hash, step: Step): (token: Option<nat>)
    ensures token.Some? ==> token.value < |m.w.tokens|
  {
    if m.session.Some? then None
    else match step
      case StartPromotion(q) => PromoteToken(m.w, hash, q)
      case StartRollback(r) => RollbackToken(m.w, hash, r)
      case _ => None
  }

  function Next(m: Machine, hash: Hash, step: Step): Machine {
    var token := TokenUsed(m, hash, step);
    match step
    case Other(x) => m.(w := Interrupt(m.w, x))
    case StartPromotion(q) =>
      if token.None? then m
      else Machine(UseToken(m.w, token.value, q.tokenNow), Some(Opened(m.w.cluster, q, token.value)))
    case StartRollback(r) =>
      if token.None? then m
      else Machine(UseToken(m.w, token.value, r.tokenNow), OpenedReversal(m.w.cluster, r, token.value))
    case Continue => if m.session.None? then m else Proceed(m.w, m.session.value)
    case Die => m.(session := None)
  }

  /** The steps of a run and the states between them. */
  datatype Trace = Trace(hash: Hash, steps: seq<Step>, ms: seq<Machine>)

  predicate Shaped(t: Trace) {
    |t.ms| == |t.steps| + 1
  }

  ghost predicate StepAt(t: Trace, i: nat)
    requires Shaped(t) && i < |t.steps|
  {
    t.ms[i + 1] == Next(t.ms[i], t.hash, t.steps[i])
  }

  ghost predicate IsTrace(t: Trace) {
    && Shaped(t)
    && (exists region: string, born: int :: t.ms[0] == Machine(Created(region, born), None))
    && forall i: nat | i < |t.steps| :: StepAt(t, i)
  }

  function Row(t: Trace, i: nat): Cluster
    requires i < |t.ms|
  {
    t.ms[i].w.cluster
  }

  // ------------------------------------------------------------ operations are runs

  /** The states after each of several steps. */
  function RunFrom(m: Machine, hash: Hash, steps: seq<Step>): (ms: seq<Machine>)
    ensures |ms| == |steps|
  {
    if steps == [] then []
    else
      var before := RunFrom(m, hash, steps[..|steps| - 1]);
      before + [Next(if before == [] then m else before[|before| - 1], hash, steps[|steps| - 1])]
  }

  function LastMachine(m: Machine, ms: seq<Machine>): Machine {
    if ms == [] then m else ms[|ms| - 1]
  }

  function Worlds(ms: seq<Machine>): (ws: seq<World>)
    ensures |ws| == |ms| && forall i | 0 <= i < |ms| :: ws[i] == ms[i].w
  {
    seq(|ms|, i requires 0 <= i < |ms| => ms[i].w)
  }

  function Others(xs: seq<Interruption>): (steps: seq<Step>)
    ensures |steps| == |xs| && forall i | 0 <= i < |xs| :: steps[i] == Other(xs[i])
  {
    seq(|xs|, i requires 0 <= i < |xs| => Other(xs[i]))
  }

  /** The steps of an operation under way, with what others do before each of its commits. */
  function Schedule(w: World, session: Option<Session>, others: seq<seq<Interruption>>): seq<Step>
    decreases Left(session)
  {
    if session.None? then []
    else
      var m := Proceed(LastOr(w, Interrupted(w, Head(others))), session.value);
      Others(Head(others)) + [Continue] + Schedule(m.w, m.session, Tail(others))
  }

  lemma {:induction false} RunJoins(m: Machine, hash: Hash, first: seq<Step>, rest: seq<Step>)
    ensures RunFrom(m, hash, first + rest)
         == RunFrom(m, hash, first) + RunFrom(LastMachine(m, RunFrom(m, hash, first)), hash, rest)
    decreases |rest|
  {
    if rest == [] {
      assert first + rest == first;
    } else {
      var n := |rest| - 1;
      RunJoins(m, hash, first, rest[..n]);
      assert (first + rest)[..|first + rest| - 1] == first + rest[..n];
    }
  }

  lemma {:induction false} OthersRun(m: Machine, hash: Hash, xs: seq<Interruption>)
    ensures Worlds(RunFrom(m, hash, Others(xs))) == Interrupted(m.w, xs)
    ensures LastMachine(m, RunFrom(m, hash, Others(xs))) == m.(w := LastOr(m.w, Interrupted(m.w, xs)))
    decreases |xs|
  {
    if xs != [] {
      var n := |xs| - 1;
      OthersRun(m, hash, xs[..n]);
      assert Others(xs)[..n] == Others(xs[..n]);
    }
  }

  lemma OneStepRun(m: Machine, hash: Hash, step: Step)
    ensures RunFrom(m, hash, [step]) == [Next(m, hash, step)]
  {
    assert [step][..0] == [];
  }

  lemma WorldsJoin(xs: seq<Machine>, ys: seq<Machine>)
    ensures Worlds(xs + ys) == Worlds(xs) + Worlds(ys)
  {
  }

  /** What others commit, and then the operation's own next commit. */
  lemma RoundRun(m: Machine, hash: Hash, xs: seq<Interruption>)
    requires m.session.Some?
    ensures var next := Proceed(LastOr(m.w, Interrupted(m.w, xs)), m.session.value);
            && Worlds(RunFrom(m, hash, Others(xs) + [Continue])) == Interrupted(m.w, xs) + [next.w]
            && LastMachine(m, RunFrom(m, hash, Others(xs) + [Continue])) == next
  {
    OthersRun(m, hash, xs);
    RunJoins(m, hash, Others(xs), [Continue]);
    OneStepRun(LastMachine(m, RunFrom(m, hash, Others(xs))), hash, Continue);
    WorldsJoin(RunFrom(m, hash, Others(xs)), RunFrom(LastMachine(m, RunFrom(m, hash, Others(xs))), hash, [Continue]));
  }

  lemma RoundThenRun(m: Machine, hash: Hash, xs: seq<Interruption>, rest: seq<Step>)
    requires m.session.Some?
    ensures var next := Proceed(LastOr(m.w, Interrupted(m.w, xs)), m.session.value);
            Worlds(RunFrom(m, hash, Others(xs) + [Continue] + rest))
            == Interrupted(m.w, xs) + [next.w] + Worlds(RunFrom(next, hash, rest))
  {
    var next := Proceed(LastOr(m.w, Interrupted(m.w, xs)), m.session.value);
    RoundRun(m, hash, xs);
    RunJoins(m, hash, Others(xs) + [Continue], rest);
    WorldsJoin(RunFrom(m, hash, Others(xs) + [Continue]), RunFrom(next, hash, rest));
  }

  /** What an operation of the service commits is what a run of its steps passes through,
      so what holds over every run holds of it. */
  lemma {:induction false} DriveIsRun(w: World, session: Option<Session>, hash: Hash, others: seq<seq<Interruption>>)
    ensures Worlds(RunFrom(Machine(w, session), hash, Schedule(w, session, others))) == Drive(w, session, others)
    decreases Left(session)
  {
    if session.Some? {
      var next := Proceed(LastOr(w, Interrupted(w, Head(others))), session.value);
      DriveIsRun(next.w, next.session, hash, Tail(others));
      RoundThenRun(Machine(w, session), hash, Head(others), Schedule(next.w, next.session, Tail(others)));
      DriveStep(w, session.value, others, next);
    }
  }

  lemma StepThenRun(m: Machine, hash: Hash, step: Step, rest: seq<Step>)
    ensures Worlds(RunFrom(m, hash, [step] + rest))
         == [Next(m, hash, step).w] + Worlds(RunFrom(Next(m, hash, step), hash, rest))
  {
    OneStepRun(m, hash, step);
    RunJoins(m, hash, [step], rest);
    WorldsJoin([Next(m, hash, step)], RunFrom(Next(m, hash, step), hash, rest));
    assert Worlds([Next(m, hash, step)]) == [Next(m, hash, step).w];
  }

  /** In particular the whole of a promotion, from its token on. */
  lemma PromotionIsRun(w: World, hash: Hash, q: PromoteRequest, others: seq<seq<Interruption>>)
    requires PromoteToken(w, hash, q).Some?
    ensures var m := Next(Machine(w, None), hash, StartPromotion(q));
            Worlds(RunFrom(Machine(w, None), hash, [StartPromotion(q)] + Schedule(m.w, m.session, others)))
            == PromoteCommits(w, hash, q, others)
  {
    var m := Next(Machine(w, None), hash, StartPromotion(q));
    StepThenRun(Machine(w, None), hash, StartPromotion(q), Schedule(m.w, m.session, others));
    DriveIsRun(m.w, m.session, hash, others);
  }

  lemma RollbackIsRun(w: World, hash: Hash, r: RollbackRequest, others: seq<seq<Interruption>>)
    requires RollbackToken(w, hash, r).Some?
    ensures var m := Next(Machine(w, None), hash, StartRollback(r));
            Worlds(RunFrom(Machine(w, None), hash, [StartRollback(r)] + Schedule(m.w, m.session, others)))
            == RollbackCommits(w, hash, r, others)
  {
    var m := Next(Machine(w, None), hash, StartRollback(r));
    StepThenRun(Machine(w, None), hash, StartRollback(r), Schedule(m.w, m.session, others));
    DriveIsRun(m.w, m.session, hash, others);
  }

  // ------------------------------------------------------------ the row and its copy

  /** Primary, epoch and cooldown are the same; freeze and state may differ. */
  predicate Settled(c: Cluster, c': Cluster) {
    && c'.primary == c.primary && c'.epoch == c.epoch && c'.lastTransitionAt == c.lastTransitionAt
    && c'.cooldownUntil == c.cooldownUntil && c'.previousPrimary == c.previousPrimary
  }

  /** The primary has moved: when, by whose clock, and from where. */
  predicate Moved(c: Cluster, c': Cluster, i: Instance, now: int) {
    && c'.epoch == c.epoch + 1 && c'.lastTransitionAt == now
    && c'.cooldownUntil == Some(now + i.cooldownSeconds)
    && !Cooling(c, now)
  }

  predicate Promoted(c: Cluster, c': Cluster, q: PromoteRequest) {
    Moved(c, c', q.instance, q.now) && c'.primary == q.target && c'.previousPrimary == Some(c.primary)
  }

  predicate RolledBackTo(c: Cluster, c': Cluster, r: RollbackRequest) {
    && Moved(c, c', r.instance, r.now) && HasPrevious(c)
    && c'.primary == c.previousPrimary.value && c'.previousPrimary == c.previousPrimary
  }

  predicate BeforeSwitch(stage: Stage) {
    stage.ToRequest? || stage.ToFreeze? || stage.ToCheck? || stage.ToSwitch?
  }

  /** Whatever others commit, the row and its copy in memory agree on all but the freeze
      and the state, and the copy is what was loaded or what was switched to. */
  predicate InStep(m: Machine) {
    m.session.Some? ==>
      match m.session.value
      case Reversal(r, _, loaded, back) =>
        Settled(loaded, m.w.cluster) && !Cooling(loaded, r.now) && HasPrevious(loaded) && back == loaded.previousPrimary.value
      case Promotion(q, _, loaded, held, event, stage) =>
        && Settled(held, m.w.cluster) && !Cooling(loaded, q.now)
        && event.fromRegion == loaded.primary && event.toRegion == q.target
        && if BeforeSwitch(stage) then Settled(loaded, held) else Promoted(loaded, held, q)
  }

  lemma FlushKeepsAgreement(row: Cluster, before: Cluster, after: Cluster)
    requires Settled(before, row)
    ensures Settled(after, Flushed(row, before, after))
  {
  }

  /** What one step does to the row: nothing but the freeze and the state, or one move. */
  ghost predicate RowEffect(m: Machine, step: Step, c': Cluster) {
    var c := m.w.cluster;
    || Settled(c, c')
    || (&& step.Continue? && m.session.Some?
        && match m.session.value
           case Promotion(q, _, _, _, _, stage) => stage.ToSwitch? && Promoted(c, c', q)
           case Reversal(r, _, _, _) => RolledBackTo(c, c', r))
  }

  lemma SwitchMoves(m: Machine)
    requires InStep(m) && m.session.Some? && m.session.value.Promotion? && m.session.value.stage.ToSwitch?
    ensures var m' := Proceed(m.w, m.session.value);
            InStep(m') && Promoted(m.w.cluster, m'.w.cluster, m.session.value.q)
  {
    var s := m.session.value;
    FlushKeepsAgreement(m.w.cluster, s.held, SwitchedHeld(s.held, s.q, s.event));
  }

  lemma RollbackMoves(m: Machine)
    requires InStep(m) && m.session.Some? && m.session.value.Reversal?
    ensures RolledBackTo(m.w.cluster, Proceed(m.w, m.session.value).w.cluster, m.session.value.r)
  {
    var s := m.session.value;
    FlushKeepsAgreement(m.w.cluster, s.loaded, RevertedHeld(s.loaded, s.r, s.back));
  }

  lemma SavedSettles(m: Machine, held: Cluster, event: Event, next: Option<Stage>)
    requires InStep(m) && m.session.Some? && m.session.value.Promotion?
    requires Settled(m.session.value.held, held)
    requires event.fromRegion == m.session.value.event.fromRegion && event.toRegion == m.session.value.event.toRegion
    requires next.Some? ==> BeforeSwitch(next.value) == BeforeSwitch(m.session.value.stage)
    ensures var m' := Saved(m.w, m.session.value, held, event, next);
            InStep(m') && Settled(m.w.cluster, m'.w.cluster)
  {
    FlushKeepsAgreement(m.w.cluster, m.session.value.held, held);
  }

  lemma OtherCommitsSettle(m: Machine)
    requires InStep(m) && m.session.Some? && m.session.value.Promotion? && !m.session.value.stage.ToSwitch?
    ensures var m' := Proceed(m.w, m.session.value);
            InStep(m') && Settled(m.w.cluster, m'.w.cluster)
  {
    var s, m' := m.session.value, Proceed(m.w, m.session.value);
    var next := if m'.session.None? then None else Some(m'.session.value.stage);
    match s.stage
    case ToRequest =>
    case ToFreeze => SavedSettles(m, s.held.(freezeWrites := true), Enter(s.event, s.event.status, FreezeWrites), next);
    case ToCheck => CheckSettles(m);
    case ToVerify => SavedSettles(m, s.held, Enter(s.event, s.event.status, Verification), next);
    case ToConclude => ConclusionSettles(m);
    case ToAbandon =>
      SavedSettles(m, AbandonedHeld(s.held, s.event), AbandonedEvent(s.event, FailoverPrecheckFailed), next);
  }

  lemma CheckSettles(m: Machine)
    requires InStep(m) && m.session.Some? && m.session.value.Promotion? && m.session.value.stage.ToCheck?
    ensures var m' := Check(m.w, m.session.value);
            InStep(m') && Settled(m.w.cluster, m'.w.cluster)
  {
    var s := m.session.value;
    var refusal := PrecheckPromotion(s.q.instance, s.q.probe, s.q.force);
    if refusal.Some? {
      SavedSettles(m, AbandonedHeld(s.held, s.event), AbandonedEvent(s.event, refusal.value), None);
    } else {
      var event := Enter(s.event, StatusValidated, Precheck).(blockers := Blockers(s.q.instance, s.q.probe));
      SavedSettles(m, s.held, event, Some(ToSwitch));
    }
  }

  lemma ConclusionSettles(m: Machine)
    requires InStep(m) && m.session.Some? && m.session.value.Promotion? && m.session.value.stage.ToConclude?
    ensures var m' := Conclusion(m.w, m.session.value);
            InStep(m') && Settled(m.w.cluster, m'.w.cluster)
  {
    var s := m.session.value;
    if VerificationPasses(s.q) {
      SavedSettles(m, FinishedHeld(s.held), Enter(s.event, StatusCompleted, Completed), None);
    } else {
      SavedSettles(m, s.held.(state := Failed), Enter(s.event, StatusFailed, Failed).(error := Some(FailoverPrecheckFailed)),
                   Some(ToAbandon));
    }
  }

  lemma StepStaysInStep(m: Machine, hash: Hash, step: Step)
    requires InStep(m)
    ensures InStep(Next(m, hash, step)) && RowEffect(m, step, Next(m, hash, step).w.cluster)
  {
    if step.Continue? && m.session.Some? {
      if m.session.value.Reversal? {
        RollbackMoves(m);
      } else if m.session.value.stage.ToSwitch? {
        SwitchMoves(m);
      } else {
        OtherCommitsSettle(m);
      }
    }
  }

  lemma {:induction false} AlwaysInStep(t: Trace, n: nat)
    requires IsTrace(t) && n <= |t.steps|
    ensures InStep(t.ms[n])
  {
    if n > 0 {
      AlwaysInStep(t, n - 1);
      assert StepAt(t, n - 1);
      StepStaysInStep(t.ms[n - 1], t.hash, t.steps[n - 1]);
    }
  }

  lemma RowEffectAt(t: Trace, i: nat)
    requires IsTrace(t) && i < |t.steps|
    ensures RowEffect(t.ms[i], t.steps[i], Row(t, i + 1))
  {
    AlwaysInStep(t, i);
    assert StepAt(t, i);
    StepStaysInStep(t.ms[i], t.hash, t.steps[i]);
  }

  // ------------------------------------------------------------------ epoch fencing

  /** Over every run, at every commit, the primary changes only together with a one-step
      rise of the epoch. */
  lemma EpochRisesWithPrimary(t: Trace, i: nat)
    requires IsTrace(t) && i < |t.steps|
    ensures Row(t, i + 1).epoch == Row(t, i).epoch || Row(t, i + 1).epoch == Row(t, i).epoch + 1
    ensures Row(t, i + 1).primary != Row(t, i).primary ==> Row(t, i + 1).epoch == Row(t, i).epoch + 1
  {
    RowEffectAt(t, i);
  }

  lemma {:induction false} EpochFences(t: Trace, k: nat, l: nat)
    requires IsTrace(t) && k <= l <= |t.steps|
    ensures Row(t, k).epoch <= Row(t, l).epoch
    ensures Row(t, k).epoch == Row(t, l).epoch ==> Row(t, k).primary == Row(t, l).primary
    decreases l - k
  {
    if k < l {
      EpochFences(t, k, l - 1);
      EpochRisesWithPrimary(t, l - 1);
    }
  }

  predicate Gated(i: Instance, routeClass: string) {
    i.enabled && routeClass in {"mutation", "run"}
  }

  /** Epoch fencing: of any two writes let through anywhere in any run, the later has
      the higher epoch or the same region as the earlier. */
  lemma WritesOfOneEpochShareRegion(t: Trace, k: nat, l: nat, i: Instance, j: Instance,
                                    routeI: string, routeJ: string, lagI: Option<int>, lagJ: Option<int>)
    requires IsTrace(t) && k <= l <= |t.steps|
    requires Gated(i, routeI) && Gated(j, routeJ)
    requires WriteGateOpen(i, routeI, lagI, Row(t, k)) && WriteGateOpen(j, routeJ, lagJ, Row(t, l))
    ensures Row(t, k).epoch <= Row(t, l).epoch
    ensures Row(t, k).epoch == Row(t, l).epoch ==> i.regionId == j.regionId
  {
    EpochFences(t, k, l);
  }

  // ----------------------------------------------------------------------- cooldown

  predicate Moves(t: Trace, i: nat)
    requires Shaped(t) && i < |t.steps|
  {
    Row(t, i + 1).epoch > Row(t, i).epoch
  }

  /** When the primary moved, among the first `n` steps. */
  function MoveTimes(t: Trace, n: nat): seq<int>
    requires Shaped(t) && n <= |t.steps|
  {
    if n == 0 then [] else MoveTimes(t, n - 1) + if Moves(t, n - 1) then [Row(t, n).lastTransitionAt] else []
  }

  predicate CoolsFor(step: Step, d: nat) {
    && (step.StartPromotion? ==> step.q.instance.cooldownSeconds >= d)
    && (step.StartRollback? ==> step.r.instance.cooldownSeconds >= d)
  }

  predicate SessionCoolsFor(m: Machine, d: nat) {
    m.session.Some? ==>
      (if m.session.value.Promotion? then m.session.value.q.instance.cooldownSeconds
       else m.session.value.r.instance.cooldownSeconds) >= d
  }

  lemma StepKeepsCool(m: Machine, hash: Hash, step: Step, d: nat)
    requires SessionCoolsFor(m, d) && CoolsFor(step, d)
    ensures SessionCoolsFor(Next(m, hash, step), d)
  {
    if m.session.Some? {
      SessionKeepsRequest(m);
    }
  }

  lemma {:induction false} SessionsCool(t: Trace, n: nat, d: nat)
    requires IsTrace(t) && n <= |t.steps|
    requires forall i | 0 <= i < |t.steps| :: CoolsFor(t.steps[i], d)
    ensures SessionCoolsFor(t.ms[n], d)
  {
    if n > 0 {
      SessionsCool(t, n - 1, d);
      assert StepAt(t, n - 1) && CoolsFor(t.steps[n - 1], d);
      StepKeepsCool(t.ms[n - 1], t.hash, t.steps[n - 1], d);
    }
  }

  lemma SessionKeepsRequest(m: Machine)
    requires m.session.Some?
    ensures var s, s' := m.session.value, Proceed(m.w, m.session.value).session;
            s'.Some? ==> s.Promotion? && s'.value.Promotion? && s'.value.q == s.q && s'.value.token == s.token
                         && s'.value.loaded == s.loaded && Left(s') < Left(m.session)
  {
  }

  predicate Spaced(times: seq<int>, d: nat) {
    forall i | 0 <= i < |times| - 1 :: times[i] + d <= times[i + 1]
  }

  lemma {:induction false} MovesAreSpaced(t: Trace, n: nat, d: nat)
    requires IsTrace(t) && n <= |t.steps|
    requires forall i | 0 <= i < |t.steps| :: CoolsFor(t.steps[i], d)
    ensures var times, c := MoveTimes(t, n), Row(t, n);
            && Spaced(times, d)
            && c.epoch == 1 + |times|
            && (times != [] ==> c.cooldownUntil.Some? && times[|times| - 1] + d <= c.cooldownUntil.value)
  {
    if n > 0 {
      MovesAreSpaced(t, n - 1, d);
      RowEffectAt(t, n - 1);
      SessionsCool(t, n - 1, d);
    }
  }

  function CountWithin(times: seq<int>, a: int, b: int): nat {
    if times == [] then 0
    else
      var n := |times| - 1;
      CountWithin(times[..n], a, b) + if a <= times[n] <= b then 1 else 0
  }

  lemma OneMore(c: nat, d: nat)
    ensures (c + 1) * d == c * d + d
  {
  }

  /** The last of several spaced times in an interval is late by all the gaps before it. */
  lemma {:induction false} SpacedCount(times: seq<int>, d: nat, a: int, b: int) returns (i: nat)
    requires Spaced(times, d) && CountWithin(times, a, b) >= 1
    ensures i < |times| && a <= times[i] <= b
    ensures (CountWithin(times, a, b) - 1) * d <= times[i] - a
    decreases |times|
  {
    var n := |times| - 1;
    var c := CountWithin(times[..n], a, b);
    if c == 0 {
      i := n;
    } else {
      i := SpacedCount(times[..n], d, a, b);
      if a <= times[n] <= b {
        SpacedApart(times, d, i, n);
        OneMore(c - 1, d);
        i := n;
      }
    }
  }

  lemma {:induction false} SpacedApart(times: seq<int>, d: nat, i: nat, j: nat)
    requires Spaced(times, d) && i < j < |times|
    ensures times[i] + d <= times[j]
    decreases j
  {
    if i < j - 1 {
      SpacedApart(times, d, i, j - 1);
    }
  }

  /** The cooldown bound: whatever is asked of the control plane, in any interval the
      primary moves at most once more than the interval holds whole cooldowns. */
  lemma MovesPerInterval(t: Trace, d: nat, a: int, b: int)
    requires IsTrace(t) && a <= b
    requires forall i | 0 <= i < |t.steps| :: CoolsFor(t.steps[i], d)
    ensures (CountWithin(MoveTimes(t, |t.steps|), a, b) - 1) * d <= b - a
    ensures Row(t, |t.steps|).epoch == 1 + |MoveTimes(t, |t.steps|)|
  {
    MovesAreSpaced(t, |t.steps|, d);
    if CountWithin(MoveTimes(t, |t.steps|), a, b) >= 1 {
      var i := SpacedCount(MoveTimes(t, |t.steps|), d, a, b);
    }
  }

  // ----------------------------------------------------------------------- rollback

  /** The region that the latest promotion past its precheck took over from. */
  function LatestPromotedFrom(t: Trace, n: nat): Option<string>
    requires Shaped(t) && n <= |t.steps|
  {
    if n == 0 then None
    else if Moves(t, n - 1) && t.ms[n - 1].session.Some? && t.ms[n - 1].session.value.Promotion? then
      Some(Row(t, n - 1).primary)
    else LatestPromotedFrom(t, n - 1)
  }

  lemma {:induction false} PreviousPrimaryIsLatest(t: Trace, n: nat)
    requires IsTrace(t) && n <= |t.steps|
    ensures Row(t, n).previousPrimary == LatestPromotedFrom(t, n)
  {
    if n > 0 {
      PreviousPrimaryIsLatest(t, n - 1);
      RowEffectAt(t, n - 1);
    }
  }

  /** Whatever failed prechecks, freezes and rollbacks came between, a rollback lands on
      the region that the latest promotion past its precheck took over from; one that has
      its token goes on exactly when there is such a region; and it lifts the freeze exactly
      if it loaded the row frozen, a freeze that lands after that being kept. */
  lemma RollbackReturnsToPromotedFrom(t: Trace, i: nat)
    requires IsTrace(t) && i < |t.steps|
    ensures t.steps[i].StartRollback? && TokenUsed(t.ms[i], t.hash, t.steps[i]).Some? ==>
              (t.ms[i + 1].session.Some? <==> LatestPromotedFrom(t, i).Some? && LatestPromotedFrom(t, i).value != "")
    ensures t.steps[i].Continue? && t.ms[i].session.Some? && t.ms[i].session.value.Reversal? ==>
              && Moves(t, i) && LatestPromotedFrom(t, i) == Some(Row(t, i + 1).primary)
              && Row(t, i + 1).freezeWrites == (!t.ms[i].session.value.loaded.freezeWrites && Row(t, i).freezeWrites)
  {
    PreviousPrimaryIsLatest(t, i);
    AlwaysInStep(t, i);
    assert StepAt(t, i);
    if t.steps[i].Continue? && t.ms[i].session.Some? && t.ms[i].session.value.Reversal? {
      RollbackMoves(t.ms[i]);
    }
  }

  // ------------------------------------------------------------------------- tokens

  predicate Consumed(w: World, token: nat) {
    token < |w.tokens| && w.tokens[token].usedAt.Some?
  }

  lemma TokenUsable(m: Machine, hash: Hash, step: Step)
    ensures var token := TokenUsed(m, hash, step);
            && (token.Some? && step.StartPromotion? ==>
                  Usable(m.w.tokens[token.value], hash(step.q.token), PROMOTE, step.q.tokenNow))
            && (token.Some? && step.StartRollback? ==>
                  Usable(m.w.tokens[token.value], hash(step.r.token), ROLLBACK, step.r.tokenNow))
  {
    match step
    case StartPromotion(q) => FindTokenFindsUsable(m.w.tokens, hash(q.token), PROMOTE, q.tokenNow);
    case StartRollback(r) => FindTokenFindsUsable(m.w.tokens, hash(r.token), ROLLBACK, r.tokenNow);
    case _ =>
  }

  /** Tokens are only ever added, and marked used by the step that uses them. */
  lemma StepTokens(m: Machine, hash: Hash, step: Step, k: nat)
    requires k < |m.w.tokens|
    ensures var m' := Next(m, hash, step);
            && k < |m'.w.tokens|
            && m'.w.tokens[k].(usedAt := None) == m.w.tokens[k].(usedAt := None)
            && (Consumed(m.w, k) ==> Consumed(m'.w, k))
            && (TokenUsed(m, hash, step) == Some(k) ==> !Consumed(m.w, k) && Consumed(m'.w, k))
  {
    TokenUsable(m, hash, step);
  }

  lemma {:induction false} ConsumedStays(t: Trace, i: nat, j: nat, token: nat)
    requires IsTrace(t) && i <= j <= |t.steps| && Consumed(t.ms[i].w, token)
    ensures Consumed(t.ms[j].w, token)
    decreases j
  {
    if i < j {
      ConsumedStays(t, i, j - 1, token);
      assert StepAt(t, j - 1);
      StepTokens(t.ms[j - 1], t.hash, t.steps[j - 1], token);
    }
  }

  /** The token that step `i` uses up. */
  function TokenOf(t: Trace, i: nat): (token: Option<nat>)
    requires Shaped(t) && i < |t.steps|
    ensures token.Some? ==> token.value < |t.ms[i].w.tokens|
  {
    TokenUsed(t.ms[i], t.hash, t.steps[i])
  }

  /** No token is used twice in any run. */
  lemma TokensAreOneTime(t: Trace, i: nat, j: nat)
    requires IsTrace(t) && i < j < |t.steps| && TokenOf(t, i).Some? && TokenOf(t, j).Some?
    ensures TokenOf(t, i) != TokenOf(t, j)
  {
    var token := TokenOf(t, i).value;
    assert StepAt(t, i) && StepAt(t, j);
    StepTokens(t.ms[i], t.hash, t.steps[i], token);
    ConsumedStays(t, i + 1, j, token);
    StepTokens(t.ms[j], t.hash, t.steps[j], TokenOf(t, j).value);
  }

  predicate Issues(step: Step, token: Token) {
    step == Other(TokenIssued(token.hash, token.purpose, token.expiresAt))
  }

  lemma {:induction false} TokensWereIssued(t: Trace, n: nat, k: nat) returns (j: nat)
    requires IsTrace(t) && n <= |t.steps| && k < |t.ms[n].w.tokens|
    ensures j < n && Issues(t.steps[j], t.ms[n].w.tokens[k])
  {
    assert StepAt(t, n - 1);
    if k < |t.ms[n - 1].w.tokens| {
      j := TokensWereIssued(t, n - 1, k);
      StepTokens(t.ms[n - 1], t.hash, t.steps[n - 1], k);
      SameButUse(t.ms[n].w.tokens[k], t.ms[n - 1].w.tokens[k]);
    } else {
      j := n - 1;
    }
  }

  lemma SameButUse(a: Token, b: Token)
    requires a.(usedAt := None) == b.(usedAt := None)
    ensures a.hash == b.hash && a.purpose == b.purpose && a.expiresAt == b.expiresAt
  {
    assert a.(usedAt := None).hash == a.hash && a.(usedAt := None).purpose == a.purpose;
    assert a.(usedAt := None).expiresAt == a.expiresAt;
  }

  /** Step `j` opened the session. */
  predicate OpenedAt(t: Trace, j: nat, s: Session)
    requires Shaped(t) && j < |t.steps|
  {
    && TokenOf(t, j) == Some(s.token)
    && (if s.Promotion? then t.steps[j] == StartPromotion(s.q) else t.steps[j] == StartRollback(s.r))
    && s.loaded == Row(t, j)
  }

  lemma {:induction false} SessionsWereOpened(t: Trace, n: nat) returns (j: nat)
    requires IsTrace(t) && n <= |t.steps| && t.ms[n].session.Some?
    ensures j < n && OpenedAt(t, j, t.ms[n].session.value)
  {
    assert StepAt(t, n - 1);
    if TokenOf(t, n - 1).Some? {
      j := n - 1;
    } else {
      j := SessionsWereOpened(t, n - 1);
      SessionKeepsRequest(t.ms[n - 1]);
    }
  }

  /** Every move of the primary is by an operation that used up a token presented with it:
      of the right purpose, unused, unexpired, and issued by an earlier step. */
  lemma MovesConsumeIssuedTokens(t: Trace, i: nat) returns (j: nat, k: nat)
    requires IsTrace(t) && i < |t.steps| && Moves(t, i)
    ensures t.ms[i].session.Some? && k < j < i && OpenedAt(t, j, t.ms[i].session.value)
    ensures var s, token := t.ms[i].session.value, t.ms[j].w.tokens[TokenOf(t, j).value];
            && Issues(t.steps[k], token)
            && (if s.Promotion? then Usable(token, t.hash(s.q.token), PROMOTE, s.q.tokenNow)
                else Usable(token, t.hash(s.r.token), ROLLBACK, s.r.tokenNow))
  {
    RowEffectAt(t, i);
    j := SessionsWereOpened(t, i);
    TokenUsable(t.ms[j], t.hash, t.steps[j]);
    k := TokensWereIssued(t, j, TokenOf(t, j).value);
  }

  /** The token is used up, and no session that holds it can still move the primary. */
  predicate Spent(m: Machine, token: nat) {
    && Consumed(m.w, token)
    && (m.session.Some? && m.session.value.token == token ==>
          m.session.value.Promotion? && !BeforeSwitch(m.session.value.stage))
  }

  lemma SpentStays(m: Machine, hash: Hash, step: Step, token: nat)
    requires Spent(m, token)
    ensures Spent(Next(m, hash, step), token)
  {
    StepTokens(m, hash, step, token);
    TokenUsable(m, hash, step);
  }

  lemma {:induction false} SpentFrom(t: Trace, i: nat, j: nat, token: nat)
    requires IsTrace(t) && i <= j <= |t.steps| && Spent(t.ms[i], token)
    ensures Spent(t.ms[j], token)
    decreases j
  {
    if i < j {
      SpentFrom(t, i, j - 1, token);
      assert StepAt(t, j - 1);
      SpentStays(t.ms[j - 1], t.hash, t.steps[j - 1], token);
    }
  }

  /** Different moves of the primary are by different tokens. */
  lemma MovesUseDistinctTokens(t: Trace, i: nat, j: nat)
    requires IsTrace(t) && i < j < |t.steps| && Moves(t, i) && Moves(t, j)
    ensures t.ms[i].session.Some? && t.ms[j].session.Some?
    ensures t.ms[i].session.value.token != t.ms[j].session.value.token
  {
    RowEffectAt(t, i);
    RowEffectAt(t, j);
    var token := t.ms[i].session.value.token;
    var start := SessionsWereOpened(t, i);
    assert StepAt(t, start) && StepAt(t, i);
    StepTokens(t.ms[start], t.hash, t.steps[start], token);
    ConsumedStays(t, start + 1, i + 1, token);
    SpentFrom(t, i + 1, j, token);
  }

  // ------------------------------------------------------------ repeating a promotion

  function Latest(w: World): Event
    requires w.events != []
  {
    w.events[|w.events| - 1]
  }

  /** The event a promotion keeps is the latest one, and is finished only when all that is
      left is its handler; until it is added, its request id has no finished event. */
  predicate Recorded(m: Machine) {
    m.session.Some? && m.session.value.Promotion? ==>
      var s := m.session.value;
      && s.event.requestId == s.q.requestId
      && (FinishedStatus(s.event.status) <==> s.stage.ToAbandon?)
      && (if s.stage.ToRequest? then !FinishedBefore(m.w, s.q.requestId)
          else m.w.events != [] && Latest(m.w) == s.event)
  }

  lemma LatestAfterAppend(events: seq<Event>, e: Event, requestId: Option<string>)
    ensures LatestEvent(events + [e], requestId)
         == if e.requestId == requestId then Some(|events|) else LatestEvent(events, requestId)
  {
    assert (events + [e])[..|events|] == events;
  }

  lemma LatestAfterUpdate(events: seq<Event>, e: Event, requestId: Option<string>)
    requires events != [] && e.requestId == events[|events| - 1].requestId
    ensures LatestEvent(WithLatest(events, e), requestId) == LatestEvent(events, requestId)
  {
    assert WithLatest(events, e)[..|events| - 1] == events[..|events| - 1];
  }

  lemma FinishedAfterAppend(w: World, w': World, e: Event, requestId: Option<string>)
    requires w'.events == w.events + [e]
    ensures FinishedBefore(w', requestId)
       <==> if e.requestId == requestId then FinishedStatus(e.status) else FinishedBefore(w, requestId)
  {
    LatestAfterAppend(w.events, e, requestId);
  }

  lemma FinishedAfterUpdate(w: World, w': World, e: Event, requestId: Option<string>)
    requires w.events != [] && w'.events == WithLatest(w.events, e) && e.requestId == Latest(w).requestId
    ensures FinishedBefore(w', requestId)
       <==> if e.requestId == requestId then FinishedStatus(e.status) else FinishedBefore(w, requestId)
    ensures Latest(w) == e ==> (FinishedBefore(w', requestId) <==> FinishedBefore(w, requestId))
  {
    LatestAfterUpdate(w.events, e, requestId);
  }

  lemma ContinueKeepsRecord(m: Machine)
    requires Recorded(m) && m.session.Some? && m.session.value.Promotion?
    ensures Recorded(Proceed(m.w, m.session.value))
  {
  }

  lemma StepKeepsRecord(m: Machine, hash: Hash, step: Step)
    requires Recorded(m)
    ensures Recorded(Next(m, hash, step))
  {
    if step.Continue? && m.session.Some? && m.session.value.Promotion? {
      ContinueKeepsRecord(m);
    }
  }

  lemma {:induction false} AlwaysRecorded(t: Trace, n: nat)
    requires IsTrace(t) && n <= |t.steps|
    ensures Recorded(t.ms[n])
  {
    if n > 0 {
      AlwaysRecorded(t, n - 1);
      assert StepAt(t, n - 1);
      StepKeepsRecord(t.ms[n - 1], t.hash, t.steps[n - 1]);
    }
  }

  lemma ContinueKeepsFinished(m: Machine, requestId: Option<string>)
    requires Recorded(m) && m.session.Some? && FinishedBefore(m.w, requestId)
    ensures FinishedBefore(Proceed(m.w, m.session.value).w, requestId)
  {
    var s, m' := m.session.value, Proceed(m.w, m.session.value);
    if s.Reversal? {
      FinishedAfterAppend(m.w, m'.w, Latest(m'.w), requestId);
    } else if s.stage.ToRequest? {
      FinishedAfterAppend(m.w, m'.w, s.event, requestId);
    } else {
      FinishedAfterUpdate(m.w, m'.w, Latest(m'.w), requestId);
      FinishedAfterUpdate(m.w, m.w, s.event, requestId);
    }
  }

  lemma StepKeepsFinished(m: Machine, hash: Hash, step: Step, requestId: Option<string>)
    requires Recorded(m) && FinishedBefore(m.w, requestId)
    ensures FinishedBefore(Next(m, hash, step).w, requestId)
    ensures step.StartPromotion? && step.q.requestId == requestId ==> Next(m, hash, step) == m
  {
    if step.Continue? && m.session.Some? {
      ContinueKeepsFinished(m, requestId);
    }
  }

  lemma {:induction false} FinishedStays(t: Trace, i: nat, j: nat, requestId: Option<string>)
    requires IsTrace(t) && i <= j <= |t.steps| && FinishedBefore(t.ms[i].w, requestId)
    ensures FinishedBefore(t.ms[j].w, requestId)
    decreases j
  {
    if i < j {
      FinishedStays(t, i, j - 1, requestId);
      AlwaysRecorded(t, j - 1);
      assert StepAt(t, j - 1);
      StepKeepsFinished(t.ms[j - 1], t.hash, t.steps[j - 1], requestId);
    }
  }

  /** Step `i` is the last commit of a promotion. */
  predicate Concludes(t: Trace, i: nat)
    requires Shaped(t) && i < |t.steps|
  {
    && t.steps[i].Continue? && t.ms[i].session.Some? && t.ms[i].session.value.Promotion?
    && t.ms[i + 1].session.None?
  }

  /** A promotion that lives to its last commit leaves its event finished. */
  lemma UncutPromotionFinishes(t: Trace, i: nat)
    requires IsTrace(t) && i < |t.steps| && Concludes(t, i)
    ensures FinishedBefore(t.ms[i + 1].w, t.ms[i].session.value.q.requestId)
  {
    AlwaysRecorded(t, i);
    assert StepAt(t, i);
    var s := t.ms[i].session.value;
    FinishedAfterUpdate(t.ms[i].w, t.ms[i + 1].w, Latest(t.ms[i + 1].w), s.q.requestId);
  }

  /** Repeating a promotion that has run its course, at any later time and whatever was
      done in between, changes nothing, and answers with the state of its event. */
  lemma RepeatedPromotionChangesNothing(t: Trace, i: nat, j: nat)
    requires IsTrace(t) && i < j < |t.steps| && Concludes(t, i) && t.steps[j].StartPromotion?
    requires t.steps[j].q.requestId == t.ms[i].session.value.q.requestId
    ensures t.ms[j + 1] == t.ms[j]
    ensures var q := t.steps[j].q;
            q.instance.enabled && q.target == q.instance.regionId ==>
              && PromoteOutcome(t.ms[j].w, t.hash, q).Ok?
              && FinishedStatus(PromoteOutcome(t.ms[j].w, t.hash, q).value.status)
  {
    var requestId := t.steps[j].q.requestId;
    UncutPromotionFinishes(t, i);
    FinishedStays(t, i + 1, j, requestId);
    AlwaysRecorded(t, j);
    assert StepAt(t, j);
    StepKeepsFinished(t.ms[j], t.hash, t.steps[j], requestId);
  }

  // ----------------------------------------------------------------- freeze envelope

  /** No region lets a write through. */
  ghost predicate GateShut(c: Cluster) {
    forall i: Instance, routeClass: string, lag: Option<int> | Gated(i, routeClass) :: !WriteGateOpen(i, routeClass, lag, c)
  }

  lemma GateShutExactlyWhenFrozen(c: Cluster)
    ensures GateShut(c) <==> c.freezeWrites
  {
    if !c.freezeWrites {
      var i := Instance(c.primary, true, true, false, false, 0, 0, 0);
      assert Gated(i, "run") && WriteGateOpen(i, "run", None, c);
    }
  }

  predicate PastCheck(stage: Stage) {
    stage.ToSwitch? || stage.ToVerify? || stage.ToConclude? || stage.ToAbandon?
  }

  /** The copy in memory is frozen if it was loaded so or once it has been frozen; and only
      what passed its precheck is past it, only what failed its verification abandoned. */
  predicate FreezeHeld(m: Machine) {
    m.session.Some? && m.session.value.Promotion? ==>
      var s := m.session.value;
      && (s.stage.ToFreeze? ==> s.q.instance.writeFreezeOnUnhealthyReplica)
      && (PastCheck(s.stage) ==> PrecheckPromotion(s.q.instance, s.q.probe, s.q.force).None?)
      && (s.stage.ToAbandon? ==> !VerificationPasses(s.q))
      && s.held.freezeWrites == (s.loaded.freezeWrites || (s.q.instance.writeFreezeOnUnhealthyReplica
                                                           && !s.stage.ToRequest? && !s.stage.ToFreeze?))
  }

  lemma StepKeepsFreezeHeld(m: Machine, hash: Hash, step: Step)
    requires FreezeHeld(m)
    ensures FreezeHeld(Next(m, hash, step))
  {
  }

  lemma {:induction false} AlwaysFreezeHeld(t: Trace, n: nat)
    requires IsTrace(t) && n <= |t.steps|
    ensures FreezeHeld(t.ms[n])
  {
    if n > 0 {
      AlwaysFreezeHeld(t, n - 1);
      assert StepAt(t, n - 1);
      StepKeepsFreezeHeld(t.ms[n - 1], t.hash, t.steps[n - 1]);
    }
  }

  /** Step `a` is the freeze commit of a promotion that is still under way after step `b`. */
  predicate FreezesThrough(t: Trace, a: nat, b: nat)
    requires Shaped(t) && a < b <= |t.steps|
  {
    && t.steps[a].Continue? && t.ms[a].session.Some? && t.ms[a].session.value.Promotion?
    && t.ms[a].session.value.stage.ToFreeze?
    && forall k | a < k <= b :: t.ms[k].session.Some?
  }

  predicate PastFreeze(m: Machine) {
    m.session.Some? && m.session.value.Promotion? && !m.session.value.stage.ToRequest? && !m.session.value.stage.ToFreeze?
  }

  lemma {:induction false} StaysPastFreeze(t: Trace, a: nat, k: nat, b: nat)
    requires IsTrace(t) && a < k <= b <= |t.steps| && FreezesThrough(t, a, b)
    ensures PastFreeze(t.ms[k])
    decreases k
  {
    assert StepAt(t, k - 1);
    if k > a + 1 {
      StaysPastFreeze(t, a, k - 1, b);
    }
  }

  /** Until it ends, a promotion past its freeze commit leaves the freeze alone. */
  lemma OnlyOthersTouchFreeze(t: Trace, a: nat, k: nat, b: nat)
    requires IsTrace(t) && a < k < b <= |t.steps| && FreezesThrough(t, a, b)
    ensures Row(t, k + 1).freezeWrites
         == if t.steps[k].Other? && t.steps[k].x.FreezeSet? then t.steps[k].x.freeze else Row(t, k).freezeWrites
  {
    StaysPastFreeze(t, a, k, b);
    StaysPastFreeze(t, a, k + 1, b);
    assert StepAt(t, k);
  }

  /** The freeze commit finds the row frozen, or writes it so: a row loaded frozen is not
      written again. */
  predicate FreezeTakes(t: Trace, a: nat)
    requires a < |t.ms| && t.ms[a].session.Some?
  {
    !t.ms[a].session.value.loaded.freezeWrites || Row(t, a).freezeWrites
  }

  predicate Unfreezes(step: Step) {
    step == Other(FreezeSet(false))
  }

  lemma FreezeCommit(t: Trace, a: nat, b: nat)
    requires IsTrace(t) && a < b <= |t.steps| && FreezesThrough(t, a, b)
    ensures Row(t, a + 1).freezeWrites <==> FreezeTakes(t, a)
  {
    AlwaysFreezeHeld(t, a);
    assert StepAt(t, a);
  }

  lemma {:induction false} FrozenThrough(t: Trace, a: nat, k: nat, b: nat)
    requires IsTrace(t) && a < k <= b <= |t.steps| && FreezesThrough(t, a, b) && FreezeTakes(t, a)
    requires forall i | a < i < k :: !Unfreezes(t.steps[i])
    ensures Row(t, k).freezeWrites
    decreases k
  {
    if k == a + 1 {
      FreezeCommit(t, a, b);
    } else {
      FrozenThrough(t, a, k - 1, b);
      OnlyOthersTouchFreeze(t, a, k - 1, b);
    }
  }

  /** The freeze envelope: from the freeze commit of a promotion on and until it ends, at
      every commit of anyone, no region lets a write through, exactly when the freeze took
      and no operator lifts it meanwhile. */
  lemma FreezeEnvelope(t: Trace, a: nat, b: nat)
    requires IsTrace(t) && a < b <= |t.steps| && FreezesThrough(t, a, b)
    ensures (forall k | a < k <= b :: GateShut(Row(t, k)))
       <==> FreezeTakes(t, a) && forall i | a < i < b :: !Unfreezes(t.steps[i])
  {
    forall k | a < k <= b ensures GateShut(Row(t, k)) <==> Row(t, k).freezeWrites {
      GateShutExactlyWhenFrozen(Row(t, k));
    }
    FreezeCommit(t, a, b);
    if FreezeTakes(t, a) && forall i | a < i < b :: !Unfreezes(t.steps[i]) {
      forall k | a < k <= b ensures Row(t, k).freezeWrites {
        FrozenThrough(t, a, k, b);
      }
    }
    forall i | a < i < b && Unfreezes(t.steps[i]) ensures !Row(t, i + 1).freezeWrites {
      OnlyOthersTouchFreeze(t, a, i, b);
    }
    assert GateShut(Row(t, a + 1)) <==> FreezeTakes(t, a);
  }

  // ------------------------------------------------------------ runs that show the conditions

  predicate Admissible(q: PromoteRequest) {
    q.instance.enabled && q.target == q.instance.regionId && !q.lockBusy
  }

  function FreshToken(hash: Hash, q: PromoteRequest): Interruption {
    TokenIssued(hash(q.token), PROMOTE, q.tokenNow + 1)
  }

  /** Started on a fresh cluster with a fresh token, a promotion gets its session. */
  lemma FreshPromotionOpens(region: string, born: int, hash: Hash, q: PromoteRequest)
    requires Admissible(q)
    ensures var m := Next(Machine(Created(region, born), None), hash, Other(FreshToken(hash, q)));
            var m' := Next(m, hash, StartPromotion(q));
            && m'.session == Some(Opened(Created(region, born).cluster, q, 0))
            && m'.w.cluster == Created(region, born).cluster && m'.w.events == []
  {
    var tokens := Interrupt(Created(region, born), FreshToken(hash, q)).tokens;
    assert tokens[..0] == [] && Usable(tokens[0], hash(q.token), PROMOTE, q.tokenNow);
    assert FindToken(tokens, hash(q.token), PROMOTE, q.tokenNow) == Some(0);
  }

  /** Any promotion with the freeze setting that passes its precheck and whose instance may
      be primary has this run: an operator lifts the freeze between its freeze and its
      precheck, and the target lets writes through before the promotion has been verified. */
  lemma LiftedFreezeOpensGate(region: string, born: int, hash: Hash, q: PromoteRequest) returns (t: Trace)
    requires Admissible(q) && q.instance.writeFreezeOnUnhealthyReplica && q.instance.primaryRole
    requires PrecheckPromotion(q.instance, q.probe, q.force).None?
    ensures IsTrace(t) && |t.steps| == 7 && Unfreezes(t.steps[4])
    ensures FreezesThrough(t, 3, 7) && FreezeTakes(t, 3)
    ensures t.ms[7].session.value.Promotion? && t.ms[7].session.value.stage.ToVerify?
    ensures Gated(q.instance, "run") && WriteGateOpen(q.instance, "run", None, Row(t, 7))
  {
    var steps := [Other(FreshToken(hash, q)), StartPromotion(q), Continue, Continue, Other(FreezeSet(false)), Continue,
                  Continue];
    var m0 := Machine(Created(region, born), None);
    FreshPromotionOpens(region, born, hash, q);
    var m1 := Next(m0, hash, steps[0]);
    var m2 := Next(m1, hash, steps[1]);
    var m3 := Next(m2, hash, Continue);
    assert m3.session.Some? && m3.session.value.stage.ToFreeze? && !m3.w.cluster.freezeWrites;
    var m4 := Next(m3, hash, Continue);
    assert m4.session.Some? && m4.session.value.stage.ToCheck?;
    var m5 := Next(m4, hash, steps[4]);
    var m6 := Next(m5, hash, Continue);
    assert m6.session.Some? && m6.session.value.stage.ToSwitch? && !m6.w.cluster.freezeWrites;
    var m7 := Next(m6, hash, Continue);
    assert m7.session.Some? && m7.session.value.stage.ToVerify?;
    t := Trace(hash, steps, [m0, m1, m2, m3, m4, m5, m6, m7]);
    assert forall i: nat | i < |t.steps| :: StepAt(t, i);
  }

  /** How a promotion that lives to its last commit leaves the row, whatever others did
      meanwhile. Past the precheck the target is primary under the next epoch, and failed
      verification leaves the freeze as it stands; a failed precheck keeps primary and
      epoch. Completion, and a failed precheck of another region than the primary, lift a
      freeze that was loaded or set by the promotion, and leave any other alone. */
  lemma PromotionEnds(t: Trace, i: nat)
    requires IsTrace(t) && i < |t.steps| && Concludes(t, i)
    ensures var s, c, c' := t.ms[i].session.value, Row(t, i), Row(t, i + 1);
            var frozeItself := s.loaded.freezeWrites || s.q.instance.writeFreezeOnUnhealthyReplica;
            if PrecheckPromotion(s.q.instance, s.q.probe, s.q.force).Some?
            then && c'.primary == s.loaded.primary && c'.epoch == s.loaded.epoch
                 && c'.freezeWrites == (c.freezeWrites && !(frozeItself && s.q.target != s.loaded.primary))
            else && c'.primary == s.q.target && c'.epoch == s.loaded.epoch + 1
                 && c'.freezeWrites == (c.freezeWrites && !(frozeItself && VerificationPasses(s.q)))
  {
    AlwaysInStep(t, i);
    AlwaysFreezeHeld(t, i);
    assert StepAt(t, i);
    OtherCommitsSettle(t.ms[i]);
  }

  // --------------------------------------------------------------- the transition table

  predicate FollowsTable(history: seq<FailoverState>) {
    forall i | 0 <= i < |history| - 1 :: StateTransitionAllowed(history[i], history[i + 1])
  }

  lemma TableStep(history: seq<FailoverState>, s: FailoverState)
    requires history != []
    ensures FollowsTable(history + [s])
       <==> FollowsTable(history) && StateTransitionAllowed(history[|history| - 1], s)
  {
    var longer := history + [s];
    if FollowsTable(longer) {
      forall i | 0 <= i < |history| - 1 ensures StateTransitionAllowed(history[i], history[i + 1]) {
        assert StateTransitionAllowed(longer[i], longer[i + 1]);
      }
      assert StateTransitionAllowed(longer[|history| - 1], longer[|history| - 1 + 1]);
    }
  }

  /** The states a promotion has been through when this commit is next. */
  function PathTo(q: PromoteRequest, stage: Stage): (path: seq<FailoverState>)
    ensures path != []
  {
    var begun := if q.instance.writeFreezeOnUnhealthyReplica then [Idle, FreezeWrites] else [Idle];
    match stage
    case ToRequest => [Idle]
    case ToFreeze => [Idle]
    case ToCheck => begun
    case ToSwitch => begun + [Precheck]
    case ToVerify => begun + [Precheck] + [Promoting]
    case ToConclude => begun + [Precheck] + [Promoting] + [Verification]
    case ToAbandon => begun + [Precheck] + [Promoting] + [Verification] + [Failed]
  }

  lemma PathFollowsTable(q: PromoteRequest, stage: Stage)
    ensures FollowsTable(PathTo(q, stage))
  {
    var begun := PathTo(q, ToCheck);
    TableStep(begun, Precheck);
    TableStep(begun + [Precheck], Promoting);
    TableStep(begun + [Precheck] + [Promoting], Verification);
    TableStep(begun + [Precheck] + [Promoting] + [Verification], Failed);
  }

  predicate OnPath(m: Machine) {
    m.session.Some? && m.session.value.Promotion? ==>
      var s := m.session.value;
      && (s.stage.ToFreeze? ==> s.q.instance.writeFreezeOnUnhealthyReplica)
      && s.event.history == PathTo(s.q, s.stage)
  }

  lemma StepStaysOnPath(m: Machine, hash: Hash, step: Step)
    requires OnPath(m)
    ensures OnPath(Next(m, hash, step))
  {
  }

  /** What a refused precheck appends `failed` to. */
  predicate RefusedHistory(history: seq<FailoverState>) {
    history == [Idle] + [Failed] || history == [Idle, FreezeWrites] + [Failed]
  }

  predicate Explained(history: seq<FailoverState>) {
    FollowsTable(history) <==> !RefusedHistory(history)
  }

  ghost predicate AllExplained(w: World) {
    forall k | 0 <= k < |w.events| :: Explained(w.events[k].history)
  }

  lemma RefusedIsOffTable(history: seq<FailoverState>)
    requires RefusedHistory(history)
    ensures !FollowsTable(history)
  {
    TableStep([Idle], Failed);
    TableStep([Idle, FreezeWrites], Failed);
  }

  /** The commit is that of a precheck that refuses. */
  predicate Refuses(s: Session) {
    s.Promotion? && s.stage.ToCheck? && PrecheckPromotion(s.q.instance, s.q.probe, s.q.force).Some?
  }

  /** The history that a promotion's commit writes: off the table exactly when its precheck
      refuses. */
  lemma PromotionCommitFollowsTable(m: Machine)
    requires OnPath(m) && Recorded(m) && m.session.Some? && m.session.value.Promotion?
    ensures var w' := Proceed(m.w, m.session.value).w;
            && w'.events != []
            && (FollowsTable(Latest(w').history) <==> !Refuses(m.session.value))
            && (Refuses(m.session.value) ==> RefusedHistory(Latest(w').history))
  {
    var s := m.session.value;
    var m' := Proceed(m.w, s);
    CommitHistory(m);
    if m'.session.Some? {
      PathFollowsTable(s.q, m'.session.value.stage);
    } else if s.stage.ToCheck? {
      RefusedIsOffTable(Latest(m'.w).history);
    } else {
      PathFollowsTable(s.q, s.stage);
      TableStep(PathTo(s.q, ToConclude), Completed);
    }
  }

  lemma CommitIsExplained(m: Machine)
    requires OnPath(m) && Recorded(m) && m.session.Some?
    ensures var w' := Proceed(m.w, m.session.value).w; w'.events != [] && Explained(Latest(w').history)
  {
    var w' := Proceed(m.w, m.session.value).w;
    if m.session.value.Promotion? {
      PromotionCommitFollowsTable(m);
    } else {
      assert Latest(w').history == [RollbackPending, RolledBack];
    }
    LongPathsAreNotRefused(Latest(w').history);
  }

  lemma LongPathsAreNotRefused(history: seq<FailoverState>)
    ensures FollowsTable(history) ==> !RefusedHistory(history)
  {
    if RefusedHistory(history) {
      RefusedIsOffTable(history);
    }
  }

  /** The history a promotion's commit leaves in the latest event. */
  lemma CommitHistory(m: Machine)
    requires OnPath(m) && Recorded(m) && m.session.Some? && m.session.value.Promotion?
    ensures var s, m' := m.session.value, Proceed(m.w, m.session.value);
            && m'.w.events != []
            && Latest(m'.w).history
               == if m'.session.Some? then PathTo(s.q, m'.session.value.stage)
                  else if s.stage.ToCheck? then PathTo(s.q, ToCheck) + [Failed]
                  else if s.stage.ToAbandon? then PathTo(s.q, ToAbandon)
                  else PathTo(s.q, ToConclude) + [Completed]
  {
  }

  lemma StepKeepsExplained(m: Machine, hash: Hash, step: Step)
    requires OnPath(m) && Recorded(m) && AllExplained(m.w)
    ensures AllExplained(Next(m, hash, step).w)
  {
    var m' := Next(m, hash, step);
    if step.Continue? && m.session.Some? {
      CommitIsExplained(m);
      forall k | 0 <= k < |m'.w.events| ensures Explained(m'.w.events[k].history) {
        if k < |m'.w.events| - 1 {
          assert m'.w.events[k] == m.w.events[k];
        }
      }
    }
  }

  lemma {:induction false} AlwaysOnPath(t: Trace, n: nat)
    requires IsTrace(t) && n <= |t.steps|
    ensures OnPath(t.ms[n])
  {
    if n > 0 {
      AlwaysOnPath(t, n - 1);
      assert StepAt(t, n - 1);
      StepStaysOnPath(t.ms[n - 1], t.hash, t.steps[n - 1]);
    }
  }

  lemma {:induction false} AlwaysExplained(t: Trace, n: nat)
    requires IsTrace(t) && n <= |t.steps|
    ensures AllExplained(t.ms[n].w)
  {
    if n > 0 {
      AlwaysExplained(t, n - 1);
      AlwaysOnPath(t, n - 1);
      AlwaysRecorded(t, n - 1);
      assert StepAt(t, n - 1);
      StepKeepsExplained(t.ms[n - 1], t.hash, t.steps[n - 1]);
    }
  }

  /** In every state of every run, the history of every event is a path of the transition
      table, except that of a promotion refused by its precheck; and a promotion's commit
      leaves the table exactly when its precheck refuses. */
  lemma HistoryFollowsTableExactlyPastPrecheck(t: Trace, n: nat)
    requires IsTrace(t) && n <= |t.steps|
    ensures forall k | 0 <= k < |t.ms[n].w.events| ::
              FollowsTable(t.ms[n].w.events[k].history) <==> !RefusedHistory(t.ms[n].w.events[k].history)
    ensures n < |t.steps| && t.steps[n].Continue? && t.ms[n].session.Some? && t.ms[n].session.value.Promotion? ==>
              && t.ms[n + 1].w.events != []
              && (FollowsTable(Latest(t.ms[n + 1].w).history) <==> !Refuses(t.ms[n].session.value))
  {
    AlwaysExplained(t, n);
    forall k | 0 <= k < |t.ms[n].w.events|
      ensures FollowsTable(t.ms[n].w.events[k].history) <==> !RefusedHistory(t.ms[n].w.events[k].history)
    {
      assert Explained(t.ms[n].w.events[k].history);
    }
    AlwaysOnPath(t, n);
    AlwaysRecorded(t, n);
    if n < |t.steps| && t.steps[n].Continue? && t.ms[n].session.Some? && t.ms[n].session.value.Promotion? {
      assert StepAt(t, n);
      PromotionCommitFollowsTable(t.ms[n]);
    }
  }

  /** Any promotion without the freeze setting that its precheck refuses has this run, and
      leaves an event off the table. */
  lemma RefusalLeavesTable(region: string, born: int, hash: Hash, q: PromoteRequest) returns (t: Trace)
    requires Admissible(q) && !q.instance.writeFreezeOnUnhealthyReplica
    requires PrecheckPromotion(q.instance, q.probe, q.force).Some?
    ensures IsTrace(t) && |t.steps| == 4 && |t.ms[4].w.events| == 1
    ensures t.ms[4].w.events[0].history == [Idle, Failed] && !FollowsTable([Idle, Failed])
  {
    var steps := [Other(FreshToken(hash, q)), StartPromotion(q), Continue, Continue];
    var m0 := Machine(Created(region, born), None);
    FreshPromotionOpens(region, born, hash, q);
    var m1 := Next(m0, hash, steps[0]);
    var m2 := Next(m1, hash, steps[1]);
    var m3 := Next(m2, hash, Continue);
    assert m3.session.Some? && m3.session.value.stage.ToCheck?;
    var m4 := Next(m3, hash, Continue);
    t := Trace(hash, steps, [m0, m1, m2, m3, m4]);
    assert forall i: nat | i < |t.steps| :: StepAt(t, i);
    RefusedIsOffTable([Idle] + [Failed]);
  }
}
