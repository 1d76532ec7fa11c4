/** What callers of the failover control plane are told, in terms of what they sent and what
    the probes saw: when a promotion, a rollback or a write goes through, why not otherwise,
    and that an answer agrees with the tables the operation leaves. */
module FailoverAnswers {
  import opened Wrappers
  import opened Failover
  import opened FailoverRuns

  // ------------------------------------------------------------------- what is asked

  /** Some token issued for this purpose has this hash, is unused and has not expired. */
  predicate TokenPresented(w: World, hash: string, purpose: string, now: int) {
    exists k | 0 <= k < |w.tokens| ::
      && w.tokens[k].hash == hash && w.tokens[k].purpose == purpose
      && w.tokens[k].usedAt == None && now < w.tokens[k].expiresAt
  }

  /** The latest event of the request id, at place `k`, has come to its end. */
  predicate RepeatOf(w: World, requestId: Option<string>, k: nat) {
    && k < |w.events| && w.events[k].requestId == requestId
    && w.events[k].status in {StatusCompleted, StatusFailed, StatusRolledBack}
    && forall j | k < j < |w.events| :: w.events[j].requestId != requestId
  }

  ghost predicate Repeats(w: World, requestId: Option<string>) {
    exists k: nat :: RepeatOf(w, requestId, k)
  }

  predicate CoolsAt(w: World, now: int) {
    w.cluster.cooldownUntil.Some? && now < w.cluster.cooldownUntil.value
  }

  /** A healthy peer names a primary, and it is another region. */
  predicate AnotherPrimary(i: Instance, p: Probe) {
    exists k | 0 <= k < |p.peers| ::
      p.peers[k].healthy && p.peers[k].activePrimary.Some? && p.peers[k].activePrimary.value !in {"", i.regionId}
  }

  /** Nothing stands against promoting the instance. */
  predicate Ready(i: Instance, p: Probe) {
    && !AnotherPrimary(i, p)
    && (i.replicationHealthRequired ==> p.lag.Some? && p.lag.value <= i.replicationLagMaxSeconds)
    && p.dbWritable && i.primaryRole && !p.localUnhealthy
  }

  lemma {:induction false} LatestIsRepeat(events: seq<Event>, requestId: Option<string>, k: nat)
    requires k < |events| && events[k].requestId == requestId
    requires forall j | k < j < |events| :: events[j].requestId != requestId
    ensures LatestEvent(events, requestId) == Some(k)
    decreases |events|
  {
    if k < |events| - 1 {
      LatestIsRepeat(events[..|events| - 1], requestId, k);
    }
  }

  lemma {:induction false} NoneAfterLatest(events: seq<Event>, requestId: Option<string>, j: nat)
    requires LatestEvent(events, requestId).Some? && LatestEvent(events, requestId).value < j < |events|
    ensures events[j].requestId != requestId
    decreases |events|
  {
    if j < |events| - 1 {
      NoneAfterLatest(events[..|events| - 1], requestId, j);
    }
  }

  lemma FinishedExactlyWhenRepeated(w: World, requestId: Option<string>)
    ensures FinishedBefore(w, requestId) <==> Repeats(w, requestId)
    ensures forall k: nat | RepeatOf(w, requestId, k) :: LatestEvent(w.events, requestId) == Some(k)
  {
    forall k: nat | RepeatOf(w, requestId, k) ensures LatestEvent(w.events, requestId) == Some(k) {
      LatestIsRepeat(w.events, requestId, k);
    }
    if FinishedBefore(w, requestId) {
      var k := LatestEvent(w.events, requestId).value;
      forall j | k < j < |w.events| ensures w.events[j].requestId != requestId {
        NoneAfterLatest(w.events, requestId, j);
      }
      assert RepeatOf(w, requestId, k);
    }
  }

  lemma FoundExactlyWhenPresented(w: World, hash: string, purpose: string, now: int)
    ensures FindToken(w.tokens, hash, purpose, now).Some? <==> TokenPresented(w, hash, purpose, now)
  {
    FindTokenFindsUsable(w.tokens, hash, purpose, now);
    if TokenPresented(w, hash, purpose, now) {
      var k :| 0 <= k < |w.tokens| && w.tokens[k].hash == hash && w.tokens[k].purpose == purpose
               && w.tokens[k].usedAt == None && now < w.tokens[k].expiresAt;
      assert Usable(w.tokens[k], hash, purpose, now);
    }
  }

  // ------------------------------------------------------------------- promotions

  /** The request is one this instance takes on: failover is on, it is the target, nobody
      has the lock, no cooldown runs, and the token is good. */
  predicate TakenOn(w: World, hash: Hash, q: PromoteRequest) {
    && q.instance.enabled && q.target == q.instance.regionId && !q.lockBusy && !CoolsAt(w, q.now)
    && TokenPresented(w, hash(q.token), "promote", q.tokenNow)
  }

  lemma PrecheckExactly(q: PromoteRequest)
    ensures var refusal := PrecheckPromotion(q.instance, q.probe, q.force);
            && (refusal.None? <==> q.force || Ready(q.instance, q.probe))
            && (refusal.Some? ==> refusal.value == if AnotherPrimary(q.instance, q.probe) then SplitBrainRisk
                                                   else FailoverPrecheckFailed)
  {
  }

  /** A promotion succeeds exactly when its request is taken on, nothing stands against it or
      it is forced, and the database turns out writable and the instance primary afterwards;
      a request id that has come to its end is answered anyway, by the target itself. */
  lemma PromotionSucceedsExactly(w: World, hash: Hash, q: PromoteRequest)
    ensures PromoteOutcome(w, hash, q).Ok? <==>
              if Repeats(w, q.requestId) then q.instance.enabled && q.target == q.instance.regionId
              else TakenOn(w, hash, q) && (q.force || Ready(q.instance, q.probe))
                   && q.dbWritableAfter && q.instance.primaryRole
  {
    FinishedExactlyWhenRepeated(w, q.requestId);
    FoundExactlyWhenPresented(w, hash(q.token), "promote", q.tokenNow);
    PrecheckExactly(q);
  }

  /** Why a promotion fails: what it is refused for before it touches anything, in order, and
      then another primary, or anything else that stands against it. */
  lemma PromotionFailsFor(w: World, hash: Hash, q: PromoteRequest)
    requires PromoteOutcome(w, hash, q).Err?
    ensures PromoteOutcome(w, hash, q).error ==
              if !q.instance.enabled then FailoverNotAllowed
              else if q.target != q.instance.regionId then FailoverPrecheckFailed
              else if q.lockBusy then FailoverInProgress
              else if CoolsAt(w, q.now) then FailoverCooldownActive
              else if !TokenPresented(w, hash(q.token), "promote", q.tokenNow) then FailoverTokenInvalid
              else if !q.force && AnotherPrimary(q.instance, q.probe) then SplitBrainRisk
              else FailoverPrecheckFailed
  {
    FoundExactlyWhenPresented(w, hash(q.token), "promote", q.tokenNow);
    PrecheckExactly(q);
  }

  /** What the blocker says is so. */
  predicate Stands(b: Blocker, i: Instance, p: Probe) {
    match b
    case ReplicationLagUnknown => i.replicationHealthRequired && p.lag == None
    case ReplicationLagTooHigh =>
      i.replicationHealthRequired && p.lag.Some? && i.replicationLagMaxSeconds < p.lag.value
    case DbNotWritable => !(p.dbWritable && i.primaryRole)
    case SplitBrain => AnotherPrimary(i, p)
    case LocalRegionUnhealthy => p.localUnhealthy
  }

  function Rank(b: Blocker): nat {
    match b
    case ReplicationLagUnknown => 0
    case ReplicationLagTooHigh => 1
    case DbNotWritable => 2
    case SplitBrain => 3
    case LocalRegionUnhealthy => 4
  }

  lemma BlockersExactly(i: Instance, p: Probe)
    ensures forall b :: b in Blockers(i, p) <==> Stands(b, i, p)
    ensures forall j, k | 0 <= j < k < |Blockers(i, p)| :: Rank(Blockers(i, p)[j]) < Rank(Blockers(i, p)[k])
  {
  }

  /** A promotion that was run reports each blocker that stood against it, once and in this
      order, and no other: so none at all unless it was forced. */
  lemma SuccessReportsBlockers(w: World, hash: Hash, q: PromoteRequest)
    requires PromoteOutcome(w, hash, q).Ok? && !Repeats(w, q.requestId)
    ensures var blockers := PromoteOutcome(w, hash, q).value.blockers;
            && (forall b :: b in blockers <==> Stands(b, q.instance, q.probe))
            && (forall j, k | 0 <= j < k < |blockers| :: Rank(blockers[j]) < Rank(blockers[k]))
            && (!q.force ==> blockers == [])
  {
    FinishedExactlyWhenRepeated(w, q.requestId);
    BlockersExactly(q.instance, q.probe);
    PrecheckExactly(q);
  }

  /** The answer to a repeated request is what its event and the row say. */
  lemma RepeatReportsItsEvent(w: World, hash: Hash, q: PromoteRequest, k: nat)
    requires RepeatOf(w, q.requestId, k) && q.instance.enabled && q.target == q.instance.regionId
    ensures var e := w.events[k];
            PromoteOutcome(w, hash, q)
            == Ok(TransitionResult(k, e.status, e.fromRegion, e.toRegion, w.cluster.epoch, w.cluster.freezeWrites, e.blockers))
    ensures forall others :: PromoteCommits(w, hash, q, others) == []
  {
    FinishedExactlyWhenRepeated(w, q.requestId);
    assert Repeats(w, q.requestId);
  }

  // ------------------------------------------------------------------- answers and tables

  /** Where a promotion under way stands with respect to event `id`. */
  predicate Keeps(m: Machine, id: nat) {
    && m.session.Some? && m.session.value.Promotion?
    && InStep(m) && FreezeHeld(m) && Recorded(m)
    && |m.w.events| == if m.session.value.stage.ToRequest? then id else id + 1
  }

  lemma {:induction false} InterruptedKeeps(w: World, session: Option<Session>, xs: seq<Interruption>, id: nat)
    requires Keeps(Machine(w, session), id)
    ensures Keeps(Machine(LastOr(w, Interrupted(w, xs)), session), id)
    decreases |xs|
  {
    if xs != [] {
      InterruptedKeeps(w, session, xs[..|xs| - 1], id);
    }
  }

  lemma ProceedKeeps(m: Machine, id: nat)
    requires Keeps(m, id) && Proceed(m.w, m.session.value).session.Some?
    ensures Keeps(Proceed(m.w, m.session.value), id)
  {
    var m' := Proceed(m.w, m.session.value);
    if m.session.value.stage.ToSwitch? {
      SwitchMoves(m);
    } else {
      OtherCommitsSettle(m);
    }
    ContinueKeepsRecord(m);
    StepKeepsFreezeHeld(m, (plain: string) => plain, Continue);
  }

  /** How a promotion leaves the tables: its row and its event, at place `id`. */
  predicate Concluded(w: World, q: PromoteRequest, loaded: Cluster, id: nat, error: Option<Error>) {
    var switched := q.force || Ready(q.instance, q.probe);
    && |w.events| == id + 1
    && w.events[id].fromRegion == loaded.primary && w.events[id].toRegion == q.target
    && w.events[id].requestId == q.requestId
    && w.events[id].status == (if error.None? then StatusCompleted else StatusFailed)
    && w.events[id].error == error
    && (error.None? ==> w.events[id].blockers == Blockers(q.instance, q.probe))
    && w.cluster.primary == (if switched then q.target else loaded.primary)
    && w.cluster.epoch == loaded.epoch + (if switched then 1 else 0)
    && (switched ==> w.cluster.previousPrimary == Some(loaded.primary)
                     && w.cluster.cooldownUntil == Some(q.now + q.instance.cooldownSeconds))
  }

  /** The event has kept no error, and the blockers its precheck saw. */
  predicate EventCarries(m: Machine) {
    m.session.Some? && m.session.value.Promotion? ==>
      var s := m.session.value;
      && s.event.error == (if s.stage.ToAbandon? then Some(FailoverPrecheckFailed) else None)
      && (PastCheck(s.stage) ==> s.event.blockers == Blockers(s.q.instance, s.q.probe))
  }

  lemma LastCommitConcludes(m: Machine, id: nat)
    requires Keeps(m, id) && EventCarries(m) && Proceed(m.w, m.session.value).session.None?
    ensures var q := m.session.value.q;
            Concluded(Proceed(m.w, m.session.value).w, q, m.session.value.loaded, id, PromotionError(q))
  {
    PrecheckExactly(m.session.value.q);
    OtherCommitsSettle(m);
  }

  lemma LastOfDrive(w: World, s: Session, others: seq<seq<Interruption>>)
    ensures var m := Proceed(LastOr(w, Interrupted(w, Head(others))), s);
            LastOr(w, Drive(w, Some(s), others)) == LastOr(m.w, Drive(m.w, m.session, Tail(others)))
  {
  }

  lemma {:induction false} DriveConcludes(w: World, s: Session, others: seq<seq<Interruption>>, id: nat)
    requires Keeps(Machine(w, Some(s)), id) && EventCarries(Machine(w, Some(s)))
    ensures Concluded(LastOr(w, Drive(w, Some(s), others)), s.q, s.loaded, id, PromotionError(s.q))
    decreases Left(Some(s))
  {
    var before := LastOr(w, Interrupted(w, Head(others)));
    var m := Proceed(before, s);
    InterruptedKeeps(w, Some(s), Head(others), id);
    LastOfDrive(w, s, others);
    SessionKeepsRequest(Machine(before, Some(s)));
    if m.session.None? {
      LastCommitConcludes(Machine(before, Some(s)), id);
    } else {
      ProceedKeeps(Machine(before, Some(s)), id);
      DriveConcludes(m.w, m.session.value, Tail(others), id);
    }
  }

  /** A promotion that gets its token leaves its event finished and the row moved exactly when
      nothing stood against it or it was forced, whatever others commit meanwhile; its answer
      names the regions, the epoch, the event and the failure that the tables then hold. */
  lemma AnswerMatchesTables(w: World, hash: Hash, q: PromoteRequest, others: seq<seq<Interruption>>)
    requires PromoteToken(w, hash, q).Some?
    ensures var end, outcome, id := LastOr(w, PromoteCommits(w, hash, q, others)), PromoteOutcome(w, hash, q), |w.events|;
            && Concluded(end, q, w.cluster, id, if outcome.Err? then Some(outcome.error) else None)
            && (outcome.Ok? ==>
                  && outcome.value.eventId == id && outcome.value.status == end.events[id].status
                  && outcome.value.fromRegion == w.cluster.primary == end.events[id].fromRegion
                  && outcome.value.toRegion == end.cluster.primary && outcome.value.epoch == end.cluster.epoch
                  && outcome.value.blockers == end.events[id].blockers && !outcome.value.freezeWrites)
  {
    var token := PromoteToken(w, hash, q).value;
    var used := UseToken(w, token, q.tokenNow);
    DriveConcludes(used, Opened(w.cluster, q, token), others, |w.events|);
    PrecheckExactly(q);
  }

  // ------------------------------------------------------------------- the row, undisturbed

  /** The row once the primary has moved to the target. */
  function MovedRow(loaded: Cluster, q: PromoteRequest, frozen: bool, state: FailoverState): Cluster {
    Cluster(q.target, loaded.epoch + 1, q.now, Some(q.now + q.instance.cooldownSeconds), frozen, Some(loaded.primary), state)
  }

  /** The row that a promotion leaves when nobody else commits meanwhile: unfrozen once it
      completes; as frozen as it was, or was made, when verification fails; and after a
      refused precheck where it was, frozen only if the target is the primary already. */
  function RowLeft(loaded: Cluster, q: PromoteRequest): Cluster {
    var frozen := loaded.freezeWrites || q.instance.writeFreezeOnUnhealthyReplica;
    if !(q.force || Ready(q.instance, q.probe)) then
      loaded.(freezeWrites := frozen && q.target == loaded.primary, state := Failed)
    else if q.dbWritableAfter && q.instance.primaryRole then MovedRow(loaded, q, false, Completed)
    else MovedRow(loaded, q, frozen, Failed)
  }

  /** The row is the one in memory, which is as far as the promotion has come. */
  predicate Mirrors(w: World, s: Session) {
    s.Promotion? && w.cluster == s.held
    && var frozen := s.loaded.freezeWrites || s.q.instance.writeFreezeOnUnhealthyReplica;
       match s.stage
       case ToRequest => s.held == s.loaded
       case ToFreeze => s.held == s.loaded
       case ToCheck => s.held == s.loaded.(freezeWrites := frozen)
       case ToSwitch => s.held == s.loaded.(freezeWrites := frozen)
       case ToVerify => s.held == MovedRow(s.loaded, s.q, frozen, Promoting)
       case ToConclude => s.held == MovedRow(s.loaded, s.q, frozen, Promoting)
       case ToAbandon => s.held == MovedRow(s.loaded, s.q, frozen, Failed)
  }

  lemma ProceedMirrors(w: World, s: Session, id: nat)
    requires Keeps(Machine(w, Some(s)), id) && Mirrors(w, s)
    ensures var m := Proceed(w, s);
            if m.session.Some? then Mirrors(m.w, m.session.value) else m.w.cluster == RowLeft(s.loaded, s.q)
  {
    PrecheckExactly(s.q);
  }

  lemma {:induction false} DriveMirrors(w: World, s: Session, id: nat)
    requires Keeps(Machine(w, Some(s)), id) && Mirrors(w, s)
    ensures LastOr(w, Drive(w, Some(s), [])).cluster == RowLeft(s.loaded, s.q)
    decreases Left(Some(s))
  {
    var m := Proceed(w, s);
    ProceedMirrors(w, s, id);
    LastOfDrive(w, s, []);
    SessionKeepsRequest(Machine(w, Some(s)));
    if m.session.Some? {
      ProceedKeeps(Machine(w, Some(s)), id);
      DriveMirrors(m.w, m.session.value, id);
    }
  }

  /** Undisturbed, a promotion that gets its token leaves exactly this row. */
  lemma UndisturbedPromotionLeaves(w: World, hash: Hash, q: PromoteRequest)
    requires PromoteToken(w, hash, q).Some?
    ensures LastOr(w, PromoteCommits(w, hash, q, [])).cluster == RowLeft(w.cluster, q)
  {
    var token := PromoteToken(w, hash, q).value;
    DriveMirrors(UseToken(w, token, q.tokenNow), Opened(w.cluster, q, token), |w.events|);
  }

  // ------------------------------------------------------------------- rollbacks

  /** A rollback succeeds exactly when failover is on, nobody has the lock, no cooldown runs,
      its token is good and there is a region to go back to. */
  lemma RollbackSucceedsExactly(w: World, hash: Hash, q: RollbackRequest)
    ensures RollbackOutcome(w, hash, q).Ok? <==>
              && q.instance.enabled && !q.lockBusy && !CoolsAt(w, q.now)
              && TokenPresented(w, hash(q.token), "rollback", q.tokenNow)
              && w.cluster.previousPrimary !in {None, Some("")}
    ensures RollbackOutcome(w, hash, q).Err? ==>
              RollbackOutcome(w, hash, q).error ==
                if !q.instance.enabled then FailoverNotAllowed
                else if q.lockBusy then FailoverInProgress
                else if CoolsAt(w, q.now) then FailoverCooldownActive
                else if !TokenPresented(w, hash(q.token), "rollback", q.tokenNow) then FailoverTokenInvalid
                else FailoverNotAllowed
  {
    FoundExactlyWhenPresented(w, hash(q.token), "rollback", q.tokenNow);
  }

  lemma {:induction false} InterruptedSettles(w: World, xs: seq<Interruption>)
    ensures Settled(w.cluster, LastOr(w, Interrupted(w, xs)).cluster) && LastOr(w, Interrupted(w, xs)).events == w.events
    decreases |xs|
  {
    if xs != [] {
      InterruptedSettles(w, xs[..|xs| - 1]);
    }
  }

  /** The answer of a rollback names the regions, the epoch and the event that the tables then
      hold, whatever others commit meanwhile. */
  lemma RollbackAnswerMatchesTables(w: World, hash: Hash, q: RollbackRequest, others: seq<seq<Interruption>>)
    requires RollbackOutcome(w, hash, q).Ok?
    ensures var end, id := LastOr(w, RollbackCommits(w, hash, q, others)), |w.events|;
            var answer := RollbackOutcome(w, hash, q).value;
            && answer.eventId == id && |end.events| == id + 1 && answer.blockers == end.events[id].blockers == []
            && answer.status == end.events[id].status == StatusRolledBack
            && answer.fromRegion == end.events[id].fromRegion == w.cluster.primary
            && answer.toRegion == end.events[id].toRegion == end.cluster.primary
            && Some(answer.toRegion) == w.cluster.previousPrimary
            && answer.epoch == end.cluster.epoch == w.cluster.epoch + 1 && !answer.freezeWrites
            && end.cluster.cooldownUntil == Some(q.now + q.instance.cooldownSeconds)
  {
    var token := RollbackToken(w, hash, q).value;
    var used := UseToken(w, token, q.tokenNow);
    var s := OpenedReversal(w.cluster, q, token).value;
    InterruptedSettles(used, Head(others));
    LastOfDrive(used, s, others);
    FlushKeepsAgreement(LastOr(used, Interrupted(used, Head(others))).cluster, w.cluster,
                        RevertedHeld(w.cluster, q, w.cluster.previousPrimary.value));
  }

  /** Undisturbed, a rollback that gets through leaves exactly this row. */
  lemma UndisturbedRollbackLeaves(w: World, hash: Hash, q: RollbackRequest)
    requires RollbackOutcome(w, hash, q).Ok?
    ensures LastOr(w, RollbackCommits(w, hash, q, [])).cluster
         == Cluster(w.cluster.previousPrimary.value, w.cluster.epoch + 1, q.now, Some(q.now + q.instance.cooldownSeconds),
                    false, w.cluster.previousPrimary, RolledBack)
  {
    var token := RollbackToken(w, hash, q).value;
    LastOfDrive(UseToken(w, token, q.tokenNow), OpenedReversal(w.cluster, q, token).value, []);
  }

  /** The operator's switch shows in the row's state and moves nothing else. */
  lemma FreezeShows(w: World, freeze: bool)
    ensures var w' := Interrupt(w, FreezeSet(freeze));
            && w'.tokens == w.tokens && w'.events == w.events && Settled(w.cluster, w'.cluster)
            && (w'.cluster.freezeWrites <==> freeze) && w'.cluster.state in {FreezeWrites, Idle}
            && (w'.cluster.state.FreezeWrites? <==> w'.cluster.freezeWrites)
  {
  }

  // ------------------------------------------------------------------- the table

  /** The transitions there are: into the precheck, on to completion or failure, to a rollback
      and its end, and back to idle. */
  lemma TableIsExactly(current: FailoverState, target: FailoverState)
    ensures StateTransitionAllowed(current, target) <==>
              || (target.FreezeWrites? && current.Idle?)
              || (target.Precheck? && current in {Idle, FreezeWrites})
              || (target.Promoting? && current.Precheck?)
              || (target.Verification? && current.Promoting?)
              || (target.Completed? && current.Verification?)
              || (target.Failed? && current in {Precheck, Promoting, Verification, RollbackPending})
              || (target.RollbackPending? && current in {Completed, Failed})
              || (target.RolledBack? && current.RollbackPending?)
              || (target.Idle? && current in {Completed, Failed, RolledBack})
  {
  }

  // ------------------------------------------------------------------- the gate

  /** Where failover is on, mutations and runs pass exactly on an unfrozen row, in its primary
      region, by an instance in the primary role, whose lag is no more than the maximum where
      replicas must be healthy; anything else always passes. */
  lemma GateOpenExactly(i: Instance, routeClass: string, lag: Option<int>, c: Cluster)
    ensures i.enabled && (routeClass == "mutation" || routeClass == "run") ==>
              (WriteGateOpen(i, routeClass, lag, c) <==>
                 && !c.freezeWrites && c.primary == i.regionId && i.primaryRole
                 && (i.writeFreezeOnUnhealthyReplica && i.replicationHealthRequired && lag.Some? ==>
                       lag.value <= i.replicationLagMaxSeconds))
    ensures !i.enabled || (routeClass != "mutation" && routeClass != "run") ==> WriteGateOpen(i, routeClass, lag, c)
  {
  }

  /** The gate and the precheck judge a lag alike: where both look at it, the lag of a region
      shuts its gate exactly when it stands against its promotion. */
  lemma GateAgreesWithPrecheck(i: Instance, p: Probe, c: Cluster)
    requires i.enabled && i.writeFreezeOnUnhealthyReplica && i.replicationHealthRequired
    requires !c.freezeWrites && c.primary == i.regionId && i.primaryRole
    ensures WriteGateOpen(i, "run", p.lag, c) <==> ReplicationLagTooHigh !in Blockers(i, p)
  {
  }
}
