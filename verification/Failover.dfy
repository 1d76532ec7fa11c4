/** The failover control plane of one cluster row: token-gated promotion and rollback,
    cooldown, epoch, write freeze and write gate.

    Promotions and rollbacks exclude each other by the failover lock.  Issuing a token and
    toggling the freeze take no lock: they commit whenever they like, between any two
    commits of a promotion or rollback as well.  Every `session.commit()` is a visible
    state.  A session keeps the row it loaded in memory, changes that copy, and writes only
    the columns it has changed.  Clock readings, probes and peer signals are inputs; so are
    the settings of the instance that serves the request, which differ from region to
    region. */
module Failover {
  import opened Wrappers

  datatype FailoverState =
    | Idle | FreezeWrites | Precheck | Promoting | Verification | Completed | Failed | RollbackPending | RolledBack

  datatype EventStatus =
    | StatusRequested | StatusValidated | StatusExecuting | StatusCompleted | StatusFailed | StatusRolledBack

  datatype Error =
    | FailoverNotAllowed | FailoverPrecheckFailed | FailoverInProgress | FailoverCooldownActive
    | FailoverTokenInvalid | SplitBrainRisk

  const PROMOTE := "promote"
  const ROLLBACK := "rollback"

  datatype Token = Token(hash: string, purpose: string, expiresAt: int, usedAt: Option<int>)

  datatype Event = Event(
    fromRegion: string,
    toRegion: string,
    status: EventStatus,
    token: nat,
    requestId: Option<string>,
    history: seq<FailoverState>,
    blockers: seq<Blocker>,
    error: Option<Error>)

  datatype Cluster = Cluster(
    primary: string,
    epoch: nat,
    lastTransitionAt: int,
    cooldownUntil: Option<int>,
    freezeWrites: bool,
    previousPrimary: Option<string>,
    state: FailoverState)

  datatype World = World(cluster: Cluster, tokens: seq<Token>, events: seq<Event>)

  datatype Instance = Instance(
    regionId: string,
    primaryRole: bool,
    enabled: bool,
    writeFreezeOnUnhealthyReplica: bool,
    replicationHealthRequired: bool,
    replicationLagMaxSeconds: int,
    cooldownSeconds: nat,
    tokenTtlSeconds: nat)

  datatype TransitionResult = TransitionResult(
    eventId: nat,
    status: EventStatus,
    fromRegion: string,
    toRegion: string,
    epoch: nat,
    freezeWrites: bool,
    blockers: seq<Blocker>)

  type Outcome = Result<TransitionResult, Error>

  type Hash = string -> string

  predicate StateTransitionAllowed(current: FailoverState, target: FailoverState) {
    match current
    case Idle => target.Precheck? || target.FreezeWrites?
    case FreezeWrites => target.Precheck?
    case Precheck => target.Promoting? || target.Failed?
    case Promoting => target.Verification? || target.Failed?
    case Verification => target.Completed? || target.Failed?
    case Failed => target.RollbackPending? || target.Idle?
    case RollbackPending => target.RolledBack? || target.Failed?
    case RolledBack => target.Idle?
    case Completed => target.Idle? || target.RollbackPending?
  }

  // ---------------------------------------------------------------------- readiness

  datatype Blocker =
    | ReplicationLagUnknown | ReplicationLagTooHigh | DbNotWritable | SplitBrain | LocalRegionUnhealthy

  datatype Peer = Peer(healthy: bool, activePrimary: Option<string>)

  /** What the readiness probes of the local instance report. */
  datatype Probe = Probe(lag: Option<int>, dbWritable: bool, localUnhealthy: bool, peers: seq<Peer>)

  predicate SplitBrainSeen(i: Instance, p: Probe) {
    exists k | 0 <= k < |p.peers| ::
      && p.peers[k].healthy && p.peers[k].activePrimary.Some?
      && p.peers[k].activePrimary.value != "" && p.peers[k].activePrimary.value != i.regionId
  }

  function Blockers(i: Instance, p: Probe): seq<Blocker> {
    (if !i.replicationHealthRequired then []
     else if p.lag.None? then [ReplicationLagUnknown]
     else if p.lag.value > i.replicationLagMaxSeconds then [ReplicationLagTooHigh]
     else [])
    + (if !p.dbWritable || !i.primaryRole then [DbNotWritable] else [])
    + (if SplitBrainSeen(i, p) then [SplitBrain] else [])
    + (if p.localUnhealthy then [LocalRegionUnhealthy] else [])
  }

  function PrecheckPromotion(i: Instance, p: Probe, force: bool): Option<Error> {
    if SplitBrainSeen(i, p) && !force then Some(SplitBrainRisk)
    else if Blockers(i, p) != [] && !force then Some(FailoverPrecheckFailed)
    else None
  }

  // --------------------------------------------------------------------- write gate

  /** May this instance serve a request of this class now? */
  predicate WriteGateOpen(i: Instance, routeClass: string, lag: Option<int>, c: Cluster) {
    || !i.enabled
    || routeClass !in {"mutation", "run"}
    || !(|| c.freezeWrites || c.primary != i.regionId || !i.primaryRole
         || (i.writeFreezeOnUnhealthyReplica && i.replicationHealthRequired
             && lag.Some? && lag.value > i.replicationLagMaxSeconds))
  }

  function Created(regionId: string, now: int): World {
    World(Cluster(regionId, 1, now, None, false, None, Idle), [], [])
  }

  // ------------------------------------------------------------------------- tokens

  predicate Usable(t: Token, hash: string, purpose: string, now: int) {
    t.hash == hash && t.purpose == purpose && t.usedAt.None? && t.expiresAt > now
  }

  /** The first token that can be used, by its place in the table. */
  function FindToken(tokens: seq<Token>, hash: string, purpose: string, now: int): (found: Option<nat>)
    ensures found.Some? ==> found.value < |tokens|
  {
    if tokens == [] then None
    else
      var n := |tokens| - 1;
      var earlier := FindToken(tokens[..n], hash, purpose, now);
      if earlier.Some? then earlier
      else if Usable(tokens[n], hash, purpose, now) then Some(n)
      else None
  }

  /** A token is found exactly when some token can be used, and the one found can. */
  lemma {:induction false} FindTokenFindsUsable(tokens: seq<Token>, hash: string, purpose: string, now: int)
    ensures var found := FindToken(tokens, hash, purpose, now);
            && (found.Some? ==> Usable(tokens[found.value], hash, purpose, now))
            && (found.None? ==> forall k | 0 <= k < |tokens| :: !Usable(tokens[k], hash, purpose, now))
  {
    if tokens != [] {
      FindTokenFindsUsable(tokens[..|tokens| - 1], hash, purpose, now);
    }
  }

  function UseToken(w: World, token: nat, now: int): World
    requires token < |w.tokens|
  {
    w.(tokens := w.tokens[token := w.tokens[token].(usedAt := Some(now))])
  }

  // ------------------------------------------------------------ what needs no lock

  /** A commit that needs no failover lock: a token issued, or the freeze toggled. */
  datatype Interruption = TokenIssued(hash: string, purpose: string, expiresAt: int) | FreezeSet(freeze: bool)

  function SetFreeze(w: World, freeze: bool): World {
    w.(cluster := w.cluster.(freezeWrites := freeze, state := if freeze then FreezeWrites else Idle))
  }

  function Interrupt(w: World, x: Interruption): World {
    match x
    case TokenIssued(hash, purpose, expiresAt) => w.(tokens := w.tokens + [Token(hash, purpose, expiresAt, None)])
    case FreezeSet(freeze) => SetFreeze(w, freeze)
  }

  function LastOr(w: World, commits: seq<World>): World {
    if commits == [] then w else commits[|commits| - 1]
  }

  /** The states committed by several interruptions in a row. */
  function Interrupted(w: World, xs: seq<Interruption>): (commits: seq<World>)
    ensures |commits| == |xs|
  {
    if xs == [] then []
    else
      var before := Interrupted(w, xs[..|xs| - 1]);
      before + [Interrupt(LastOr(w, before), xs[|xs| - 1])]
  }

  // ------------------------------------------------------------ the row held in memory

  /** What the row becomes when a session that loaded `before` saves `after`: only the
      columns it changed are written, the two metadata entries together. */
  function Flushed(row: Cluster, before: Cluster, after: Cluster): Cluster {
    var metadata := after.previousPrimary != before.previousPrimary || after.state != before.state;
    Cluster(
      if after.primary != before.primary then after.primary else row.primary,
      if after.epoch != before.epoch then after.epoch else row.epoch,
      if after.lastTransitionAt != before.lastTransitionAt then after.lastTransitionAt else row.lastTransitionAt,
      if after.cooldownUntil != before.cooldownUntil then after.cooldownUntil else row.cooldownUntil,
      if after.freezeWrites != before.freezeWrites then after.freezeWrites else row.freezeWrites,
      if metadata then after.previousPrimary else row.previousPrimary,
      if metadata then after.state else row.state)
  }

  // ---------------------------------------------------------------------- promotion

  datatype PromoteRequest = PromoteRequest(
    instance: Instance,
    target: string,
    token: string,
    force: bool,
    requestId: Option<string>,
    lockBusy: bool,
    now: int,
    tokenNow: int,
    probe: Probe,
    dbWritableAfter: bool)

  predicate FinishedStatus(s: EventStatus) {
    s.StatusCompleted? || s.StatusFailed? || s.StatusRolledBack?
  }

  /** The latest event of a request id, by its place in the table. */
  function LatestEvent(events: seq<Event>, requestId: Option<string>): (found: Option<nat>)
    ensures found.Some? ==> found.value < |events| && events[found.value].requestId == requestId
  {
    if events == [] then None
    else
      var n := |events| - 1;
      if events[n].requestId == requestId then Some(n) else LatestEvent(events[..n], requestId)
  }

  predicate FinishedBefore(w: World, requestId: Option<string>) {
    var found := LatestEvent(w.events, requestId);
    found.Some? && FinishedStatus(w.events[found.value].status)
  }

  predicate Cooling(c: Cluster, now: int) {
    c.cooldownUntil.Some? && c.cooldownUntil.value > now
  }

  /** What a promotion answers without touching anything, if it goes no further. */
  function PromoteGuard(w: World, q: PromoteRequest): Option<Outcome> {
    if !q.instance.enabled then Some(Err(FailoverNotAllowed))
    else if q.target != q.instance.regionId then Some(Err(FailoverPrecheckFailed))
    else if FinishedBefore(w, q.requestId) then Some(Ok(Report(w, LatestEvent(w.events, q.requestId).value)))
    else if q.lockBusy then Some(Err(FailoverInProgress))
    else if Cooling(w.cluster, q.now) then Some(Err(FailoverCooldownActive))
    else None
  }

  /** The token a promotion uses up, when it gets that far. */
  function PromoteToken(w: World, hash: Hash, q: PromoteRequest): (token: Option<nat>)
    ensures token.Some? ==> token.value < |w.tokens|
  {
    if PromoteGuard(w, q).Some? then None else FindToken(w.tokens, hash(q.token), PROMOTE, q.tokenNow)
  }

  // ------------------------------------------------------------ a promotion, commit by commit

  /** The next commit of a promotion. */
  datatype Stage = ToRequest | ToFreeze | ToCheck | ToSwitch | ToVerify | ToConclude | ToAbandon

  /** An operation under the lock: its token, the row as it was loaded and as it stands in
      memory, and for a promotion the event it keeps. */
  datatype Session =
    | Promotion(q: PromoteRequest, token: nat, loaded: Cluster, held: Cluster, event: Event, stage: Stage)
    | Reversal(r: RollbackRequest, token: nat, loaded: Cluster, back: string)

  /** The tables, and the operation that has the lock. */
  datatype Machine = Machine(w: World, session: Option<Session>)

  function NewEvent(c: Cluster, q: PromoteRequest, token: nat): Event {
    Event(c.primary, q.target, StatusRequested, token, q.requestId, [Idle], [], None)
  }

  function Opened(c: Cluster, q: PromoteRequest, token: nat): Session {
    Promotion(q, token, c, c, NewEvent(c, q, token), ToRequest)
  }

  function Enter(e: Event, status: EventStatus, s: FailoverState): Event {
    e.(status := status, history := e.history + [s])
  }

  function SwitchedHeld(c: Cluster, q: PromoteRequest, e: Event): Cluster {
    c.(primary := q.target,
       epoch := c.epoch + 1,
       lastTransitionAt := q.now,
       cooldownUntil := Some(q.now + q.instance.cooldownSeconds),
       previousPrimary := Some(e.fromRegion),
       state := Promoting)
  }

  function FinishedHeld(c: Cluster): Cluster {
    c.(freezeWrites := false, state := Completed)
  }

  predicate EndsFailed(e: Event) {
    e.history != [] && e.history[|e.history| - 1] == Failed
  }

  /** What the handler of a raised error makes of the row in memory: the freeze is released
      unless the target is the primary by then. */
  function AbandonedHeld(c: Cluster, e: Event): Cluster {
    c.(freezeWrites := c.freezeWrites && e.toRegion == c.primary, state := Failed)
  }

  function AbandonedEvent(e: Event, error: Error): Event {
    e.(status := StatusFailed, error := Some(error), history := if EndsFailed(e) then e.history else e.history + [Failed])
  }

  predicate VerificationPasses(q: PromoteRequest) {
    q.dbWritableAfter && q.instance.primaryRole
  }

  function WithLatest(events: seq<Event>, event: Event): seq<Event> {
    if events == [] then [] else events[|events| - 1 := event]
  }

  /** A commit that saves the row and the event, and what is next. */
  function Saved(w: World, s: Session, held: Cluster, event: Event, next: Option<Stage>): Machine
    requires s.Promotion?
  {
    Machine(World(Flushed(w.cluster, s.held, held), w.tokens, WithLatest(w.events, event)),
            if next.None? then None else Some(s.(held := held, event := event, stage := next.value)))
  }

  function Conclusion(w: World, s: Session): Machine
    requires s.Promotion?
  {
    if VerificationPasses(s.q) then Saved(w, s, FinishedHeld(s.held), Enter(s.event, StatusCompleted, Completed), None)
    else Saved(w, s, s.held.(state := Failed),
               Enter(s.event, StatusFailed, Failed).(error := Some(FailoverPrecheckFailed)), Some(ToAbandon))
  }

  function Check(w: World, s: Session): Machine
    requires s.Promotion?
  {
    var refusal := PrecheckPromotion(s.q.instance, s.q.probe, s.q.force);
    if refusal.Some? then Saved(w, s, AbandonedHeld(s.held, s.event), AbandonedEvent(s.event, refusal.value), None)
    else
      var event := Enter(s.event, StatusValidated, Precheck).(blockers := Blockers(s.q.instance, s.q.probe));
      Saved(w, s, s.held, event, Some(ToSwitch))
  }

  function Request(w: World, s: Session): Machine
    requires s.Promotion?
  {
    Machine(w.(events := w.events + [s.event]),
            Some(s.(stage := if s.q.instance.writeFreezeOnUnhealthyReplica then ToFreeze else ToCheck)))
  }

  /** The next commit of the operation that has the lock. */
  function Proceed(w: World, s: Session): Machine {
    match s
    case Reversal(r, token, loaded, back) => Machine(Reverted(w, r, token, loaded, back), None)
    case Promotion(q, token, loaded, held, event, stage) =>
      match stage
      case ToRequest => Request(w, s)
      case ToFreeze => Saved(w, s, held.(freezeWrites := true), Enter(event, event.status, FreezeWrites), Some(ToCheck))
      case ToCheck => Check(w, s)
      case ToSwitch => Saved(w, s, SwitchedHeld(held, q, event), Enter(event, StatusExecuting, Promoting), Some(ToVerify))
      case ToVerify => Saved(w, s, held, Enter(event, event.status, Verification), Some(ToConclude))
      case ToConclude => Conclusion(w, s)
      case ToAbandon => Saved(w, s, AbandonedHeld(held, event), AbandonedEvent(event, FailoverPrecheckFailed), None)
  }

  /** How many commits are left at most. */
  function Left(session: Option<Session>): nat {
    if session.None? then 0
    else match session.value
      case Reversal(_, _, _, _) => 1
      case Promotion(_, _, _, _, _, stage) =>
        match stage
        case ToRequest => 7
        case ToFreeze => 6
        case ToCheck => 5
        case ToSwitch => 4
        case ToVerify => 3
        case ToConclude => 2
        case ToAbandon => 1
  }

  function Head(others: seq<seq<Interruption>>): seq<Interruption> {
    if others == [] then [] else others[0]
  }

  function Tail(others: seq<seq<Interruption>>): seq<seq<Interruption>> {
    if others == [] then [] else others[1..]
  }

  /** Every state committed until the operation is over, when `others` commit before each
      of its commits in turn. */
  function Drive(w: World, session: Option<Session>, others: seq<seq<Interruption>>): (commits: seq<World>)
    ensures session.Some? ==> commits != []
    decreases Left(session)
  {
    if session.None? then []
    else
      var before := Interrupted(w, Head(others));
      var m := Proceed(LastOr(w, before), session.value);
      before + [m.w] + Drive(m.w, m.session, Tail(others))
  }

  /** How a promotion that has started fails, if it does. */
  function PromotionError(q: PromoteRequest): Option<Error> {
    var refusal := PrecheckPromotion(q.instance, q.probe, q.force);
    if refusal.Some? then refusal
    else if VerificationPasses(q) then None
    else Some(FailoverPrecheckFailed)
  }

  /** The states committed from a promotion's token on, in order. The row stays locked from
      its loading to the commit of the token. */
  function PromoteCommits(w: World, hash: Hash, q: PromoteRequest, others: seq<seq<Interruption>>): seq<World> {
    var token := PromoteToken(w, hash, q);
    if token.None? then []
    else
      var used := UseToken(w, token.value, q.tokenNow);
      [used] + Drive(used, Some(Opened(w.cluster, q, token.value)), others)
  }

  function Report(w: World, event: nat): TransitionResult
    requires event < |w.events|
  {
    var e := w.events[event];
    TransitionResult(event, e.status, e.fromRegion, e.toRegion, w.cluster.epoch, w.cluster.freezeWrites, e.blockers)
  }

  function PromoteOutcome(w: World, hash: Hash, q: PromoteRequest): Outcome {
    if PromoteGuard(w, q).Some? then PromoteGuard(w, q).value
    else if PromoteToken(w, hash, q).None? then Err(FailoverTokenInvalid)
    else StartOutcome(|w.events|, w.cluster, q)
  }

  function StartOutcome(id: nat, loaded: Cluster, q: PromoteRequest): Outcome {
    if PromotionError(q).Some? then Err(PromotionError(q).value)
    else Ok(TransitionResult(id, StatusCompleted, loaded.primary, q.target, loaded.epoch + 1, false,
                             Blockers(q.instance, q.probe)))
  }

  // ----------------------------------------------------------------------- rollback

  datatype RollbackRequest = RollbackRequest(
    instance: Instance,
    token: string,
    requestId: Option<string>,
    lockBusy: bool,
    now: int,
    tokenNow: int)

  function RollbackGuard(w: World, q: RollbackRequest): Option<Error> {
    if !q.instance.enabled then Some(FailoverNotAllowed)
    else if q.lockBusy then Some(FailoverInProgress)
    else if Cooling(w.cluster, q.now) then Some(FailoverCooldownActive)
    else None
  }

  /** The token a rollback uses up, when it gets that far. */
  function RollbackToken(w: World, hash: Hash, q: RollbackRequest): (token: Option<nat>)
    ensures token.Some? ==> token.value < |w.tokens|
  {
    if RollbackGuard(w, q).Some? then None else FindToken(w.tokens, hash(q.token), ROLLBACK, q.tokenNow)
  }

  predicate HasPrevious(c: Cluster) {
    c.previousPrimary.Some? && c.previousPrimary.value != ""
  }

  function RevertedHeld(c: Cluster, r: RollbackRequest, back: string): Cluster {
    c.(primary := back,
       epoch := c.epoch + 1,
       lastTransitionAt := r.now,
       cooldownUntil := Some(r.now + r.instance.cooldownSeconds),
       freezeWrites := false,
       state := RolledBack)
  }

  function Reverted(w: World, r: RollbackRequest, token: nat, loaded: Cluster, back: string): World {
    World(Flushed(w.cluster, loaded, RevertedHeld(loaded, r, back)),
          w.tokens,
          w.events + [Event(loaded.primary, back, StatusRolledBack, token, r.requestId,
                            [RollbackPending, RolledBack], [], None)])
  }

  /** The session of a rollback that has its token; none when there is nothing to go back to. */
  function OpenedReversal(c: Cluster, r: RollbackRequest, token: nat): Option<Session> {
    if HasPrevious(c) then Some(Reversal(r, token, c, c.previousPrimary.value)) else None
  }

  /** A rollback uses up its token even when there is nothing to go back to. */
  function RollbackCommits(w: World, hash: Hash, r: RollbackRequest, others: seq<seq<Interruption>>): seq<World> {
    var token := RollbackToken(w, hash, r);
    if token.None? then []
    else
      var used := UseToken(w, token.value, r.tokenNow);
      [used] + Drive(used, OpenedReversal(w.cluster, r, token.value), others)
  }

  function RollbackOutcome(w: World, hash: Hash, q: RollbackRequest): Outcome {
    if RollbackGuard(w, q).Some? then Err(RollbackGuard(w, q).value)
    else if RollbackToken(w, hash, q).None? then Err(FailoverTokenInvalid)
    else if !HasPrevious(w.cluster) then Err(FailoverNotAllowed)
    else RevertOutcome(|w.events|, w.cluster)
  }

  function RevertOutcome(id: nat, loaded: Cluster): Outcome
    requires HasPrevious(loaded)
  {
    Ok(TransitionResult(id, StatusRolledBack, loaded.primary, loaded.previousPrimary.value, loaded.epoch + 1, false, []))
  }

  // ------------------------------------------------------------ assembling commits

  lemma DriveStep(w: World, s: Session, others: seq<seq<Interruption>>, m: Machine)
    requires m == Proceed(LastOr(w, Interrupted(w, Head(others))), s)
    ensures Drive(w, Some(s), others) == Interrupted(w, Head(others)) + [m.w] + Drive(m.w, m.session, Tail(others))
  {
  }

  lemma CommitsJoin(log: seq<World>, before: seq<World>, w: World, rest: seq<World>)
    ensures (log + before + [w]) + rest == log + (before + [w] + rest)
  {
  }

  /** A token's commit, and those that follow it. */
  lemma AfterToken(log: seq<World>, w: World, used: World, rest: seq<World>, current: World)
    requires (log + [used] + rest)[|log| + |rest|] == current
    ensures log + [used] + rest == log + ([used] + rest)
    ensures LastOr(w, [used] + rest) == current
  {
  }

  // ------------------------------------------------------------------------ service

  /** The control plane over its three tables.  `commits` is every state committed. */
  class FailoverService {
    const hash: Hash

    var activePrimaryRegion: string
    var epoch: nat
    var lastTransitionAt: int
    var cooldownUntil: Option<int>
    var freezeWrites: bool
    var previousPrimary: Option<string>
    var state: FailoverState
    var tokens: seq<Token>
    var events: seq<Event>
    ghost var commits: seq<World>

    /** The cluster row as it is first created. */
    constructor (hash: Hash, regionId: string, now: int)
      ensures this.hash == hash && commits == []
      ensures Current() == Created(regionId, now)
    {
      this.hash := hash;
      activePrimaryRegion, epoch, lastTransitionAt, cooldownUntil := regionId, 1, now, None;
      freezeWrites, previousPrimary, state := false, None, Idle;
      tokens, events, commits := [], [], [];
    }

    function Current(): World
      reads this
    {
      World(Cluster(activePrimaryRegion, epoch, lastTransitionAt, cooldownUntil, freezeWrites, previousPrimary, state),
            tokens, events)
    }

    ghost method Commit()
      modifies `commits
      ensures commits == old(commits) + [Current()]
    {
      commits := commits + [Current()];
    }

    method IssueFailoverToken(i: Instance, plaintext: string, purpose: string, now: int) returns (error: Option<Error>)
      modifies this
      ensures error.Some? <==> purpose !in {PROMOTE, ROLLBACK}
      ensures error.Some? ==> Current() == old(Current()) && commits == old(commits)
      ensures error.None? ==>
                && Current() == Interrupt(old(Current()), TokenIssued(hash(plaintext), purpose, now + i.tokenTtlSeconds))
                && commits == old(commits) + [Current()]
    {
      if purpose !in {PROMOTE, ROLLBACK} {
        return Some(FailoverTokenInvalid);
      }
      AddToken(hash(plaintext), purpose, now + i.tokenTtlSeconds);
      return None;
    }

    method AddToken(hashed: string, purpose: string, expiresAt: int)
      modifies this
      ensures Current() == Interrupt(old(Current()), TokenIssued(hashed, purpose, expiresAt))
      ensures commits == old(commits) + [Current()]
    {
      tokens := tokens + [Token(hashed, purpose, expiresAt, None)];
      Commit();
    }

    method ConsumeToken(plaintext: string, purpose: string, now: int) returns (token: Option<nat>)
      modifies `tokens, `commits
      ensures token == FindToken(old(tokens), hash(plaintext), purpose, now)
      ensures token.None? ==> commits == old(commits) && tokens == old(tokens)
      ensures token.Some? ==> Current() == UseToken(old(Current()), token.value, now)
      ensures token.Some? ==> commits == old(commits) + [Current()]
    {
      token := FindToken(tokens, hash(plaintext), purpose, now);
      if token.Some? {
        tokens := tokens[token.value := tokens[token.value].(usedAt := Some(now))];
        Commit();
      }
    }

    method SetWriteFreeze(freeze: bool)
      modifies this
      ensures Current() == SetFreeze(old(Current()), freeze)
      ensures commits == old(commits) + [Current()]
    {
      freezeWrites := freeze;
      state := if freeze then FreezeWrites else Idle;
      Commit();
    }

    /** What other sessions commit while an operation is between two of its own commits. */
    method LetOthersCommit(xs: seq<Interruption>)
      modifies this
      ensures commits == old(commits) + Interrupted(old(Current()), xs)
      ensures Current() == LastOr(old(Current()), Interrupted(old(Current()), xs))
      ensures events == old(events)
    {
      ghost var start, log := Current(), commits;
      assert log + [] == log;
      for i := 0 to |xs|
        invariant commits == log + Interrupted(start, xs[..i])
        invariant Current() == LastOr(start, Interrupted(start, xs[..i]))
        invariant events == old(events)
      {
        assert xs[..i + 1][..i] == xs[..i];
        ghost var before := Interrupted(start, xs[..i]);
        match xs[i]
        case TokenIssued(hashed, purpose, expiresAt) => AddToken(hashed, purpose, expiresAt);
        case FreezeSet(freeze) => SetWriteFreeze(freeze);
        assert log + before + [Current()] == log + (before + [Current()]);
      }
      assert xs[..|xs|] == xs;
    }

    method EnforceWriteGate(i: Instance, routeClass: string, lag: Option<int>) returns (open: bool)
      ensures open == WriteGateOpen(i, routeClass, lag, Current().cluster)
    {
      if !i.enabled {
        return true;
      }
      if routeClass !in {"mutation", "run"} {
        return true;
      }
      var frozen := freezeWrites || activePrimaryRegion != i.regionId || !i.primaryRole;
      if i.writeFreezeOnUnhealthyReplica && i.replicationHealthRequired &&
         lag.Some? && lag.value > i.replicationLagMaxSeconds {
        frozen := true;
      }
      return !frozen;
    }

    /** The row as a session loads it. */
    function Row(): Cluster
      reads this
    {
      Current().cluster
    }

    /** Saves a row held in memory: the columns changed since `before` are written. */
    method SaveRow(before: Cluster, after: Cluster)
      modifies this
      ensures Current() == old(Current()).(cluster := Flushed(old(Row()), before, after)) && commits == old(commits)
    {
      SaveTransition(before, after);
      SaveFreeze(before, after);
    }

    method SaveFreeze(before: Cluster, after: Cluster)
      modifies `freezeWrites, `previousPrimary, `state
      ensures freezeWrites == if after.freezeWrites != before.freezeWrites then after.freezeWrites else old(freezeWrites)
      ensures if after.previousPrimary != before.previousPrimary || after.state != before.state
              then previousPrimary == after.previousPrimary && state == after.state
              else previousPrimary == old(previousPrimary) && state == old(state)
    {
      if after.freezeWrites != before.freezeWrites {
        freezeWrites := after.freezeWrites;
      }
      if after.previousPrimary != before.previousPrimary || after.state != before.state {
        previousPrimary, state := after.previousPrimary, after.state;
      }
    }

    method SaveTransition(before: Cluster, after: Cluster)
      modifies `activePrimaryRegion, `epoch, `lastTransitionAt, `cooldownUntil
      ensures activePrimaryRegion == if after.primary != before.primary then after.primary else old(activePrimaryRegion)
      ensures epoch == if after.epoch != before.epoch then after.epoch else old(epoch)
      ensures lastTransitionAt
           == if after.lastTransitionAt != before.lastTransitionAt then after.lastTransitionAt else old(lastTransitionAt)
      ensures cooldownUntil
           == if after.cooldownUntil != before.cooldownUntil then after.cooldownUntil else old(cooldownUntil)
    {
      if after.primary != before.primary {
        activePrimaryRegion := after.primary;
      }
      if after.epoch != before.epoch {
        epoch := after.epoch;
      }
      if after.lastTransitionAt != before.lastTransitionAt {
        lastTransitionAt := after.lastTransitionAt;
      }
      if after.cooldownUntil != before.cooldownUntil {
        cooldownUntil := after.cooldownUntil;
      }
    }

    /** One commit of a promotion: the row and the event as the session now holds them. */
    method SaveAndCommit(s: Session, held: Cluster, event: Event, stage: Option<Stage>) returns (next: Option<Session>)
      requires s.Promotion? && events != []
      modifies this
      ensures Machine(Current(), next) == Saved(old(Current()), s, held, event, stage)
      ensures commits == old(commits) + [Current()] && events != []
    {
      SaveRow(s.held, held);
      events := events[|events| - 1 := event];
      Commit();
      next := if stage.None? then None else Some(s.(held := held, event := event, stage := stage.value));
    }

    method AbandonPromotion(s: Session, error: Error)
      requires s.Promotion? && events != []
      modifies this
      ensures Machine(Current(), None)
           == Saved(old(Current()), s, AbandonedHeld(s.held, s.event), AbandonedEvent(s.event, error), None)
      ensures commits == old(commits) + [Current()]
    {
      var event := s.event.(status := StatusFailed, error := Some(error));
      if event.history == [] || event.history[|event.history| - 1] != Failed {
        event := event.(history := event.history + [Failed]);
      }
      var held := s.held;
      if event.toRegion != held.primary {
        held := held.(freezeWrites := false);
      }
      held := held.(state := Failed);
      var over := SaveAndCommit(s, held, event, None);
    }

    method RequestPromotion(s: Session) returns (next: Session)
      requires s.Promotion? && s.stage.ToRequest?
      modifies this
      ensures Machine(Current(), Some(next)) == Proceed(old(Current()), s)
      ensures commits == old(commits) + [Current()] && events != []
    {
      events := events + [s.event];
      Commit();
      next := s.(stage := if s.q.instance.writeFreezeOnUnhealthyReplica && StateTransitionAllowed(Idle, FreezeWrites)
                          then ToFreeze else ToCheck);
    }

    method FreezeForPromotion(s: Session) returns (next: Session)
      requires s.Promotion? && s.stage.ToFreeze? && events != []
      modifies this
      ensures Machine(Current(), Some(next)) == Proceed(old(Current()), s)
      ensures commits == old(commits) + [Current()] && events != []
    {
      var event := s.event.(history := s.event.history + [FreezeWrites]);
      var saved := SaveAndCommit(s, s.held.(freezeWrites := true), event, Some(ToCheck));
      next := saved.value;
    }

    /** The precheck: on refusal the promotion is abandoned, otherwise its event validated. */
    method CheckPromotion(s: Session) returns (next: Option<Session>, error: Option<Error>)
      requires s.Promotion? && s.stage.ToCheck? && events != []
      modifies this
      ensures Machine(Current(), next) == Proceed(old(Current()), s)
      ensures commits == old(commits) + [Current()] && events != []
      ensures error == PrecheckPromotion(s.q.instance, s.q.probe, s.q.force)
    {
      error := PrecheckPromotion(s.q.instance, s.q.probe, s.q.force);
      if error.Some? {
        AbandonPromotion(s, error.value);
        return None, error;
      }
      var event := s.event.(history := s.event.history + [Precheck], blockers := Blockers(s.q.instance, s.q.probe));
      next := SaveAndCommit(s, s.held, event.(status := StatusValidated), Some(ToSwitch));
    }

    method SwitchPrimary(s: Session) returns (next: Session)
      requires s.Promotion? && s.stage.ToSwitch? && events != []
      modifies this
      ensures Machine(Current(), Some(next)) == Proceed(old(Current()), s)
      ensures commits == old(commits) + [Current()] && events != []
    {
      var event := s.event.(status := StatusExecuting, history := s.event.history + [Promoting]);
      var held := s.held.(primary := s.q.target, epoch := s.held.epoch + 1, lastTransitionAt := s.q.now);
      held := held.(cooldownUntil := Some(s.q.now + s.q.instance.cooldownSeconds));
      held := held.(state := Promoting, previousPrimary := Some(event.fromRegion));
      var saved := SaveAndCommit(s, held, event, Some(ToVerify));
      next := saved.value;
    }

    method BeginVerification(s: Session) returns (next: Session)
      requires s.Promotion? && s.stage.ToVerify? && events != []
      modifies this
      ensures Machine(Current(), Some(next)) == Proceed(old(Current()), s)
      ensures commits == old(commits) + [Current()] && events != []
    {
      var saved := SaveAndCommit(s, s.held, s.event.(history := s.event.history + [Verification]), Some(ToConclude));
      next := saved.value;
    }

    method FailVerification(s: Session) returns (next: Session)
      requires s.Promotion? && s.stage.ToConclude? && events != [] && !VerificationPasses(s.q)
      modifies this
      ensures Machine(Current(), Some(next)) == Proceed(old(Current()), s)
      ensures commits == old(commits) + [Current()] && events != []
    {
      var event := s.event.(status := StatusFailed, history := s.event.history + [Failed]);
      event := event.(error := Some(FailoverPrecheckFailed));
      var saved := SaveAndCommit(s, s.held.(state := Failed), event, Some(ToAbandon));
      next := saved.value;
    }

    method CompletePromotion(s: Session)
      requires s.Promotion? && s.stage.ToConclude? && events != [] && VerificationPasses(s.q)
      modifies this
      ensures Machine(Current(), None) == Proceed(old(Current()), s)
      ensures commits == old(commits) + [Current()]
    {
      var event := s.event.(status := StatusCompleted, history := s.event.history + [Completed]);
      var over := SaveAndCommit(s, s.held.(freezeWrites := false, state := Completed), event, None);
    }

    /** The last commits: completion, or a failed verification and its handler. */
    method ConcludePromotion(s: Session, others: seq<seq<Interruption>>) returns (error: Option<Error>)
      requires s.Promotion? && s.stage.ToConclude? && events != []
      modifies this
      ensures commits == old(commits) + Drive(old(Current()), Some(s), others)
      ensures commits != [] && commits[|commits| - 1] == Current()
      ensures error == if VerificationPasses(s.q) then None else Some(FailoverPrecheckFailed)
    {
      ghost var log, w := commits, Current();
      LetOthersCommit(Head(others));
      ghost var before := Current();
      if !s.q.dbWritableAfter || !s.q.instance.primaryRole {
        var failed := FailVerification(s);
        ghost var m := Machine(Current(), Some(failed));
        DriveStep(w, s, others, m);
        CommitsJoin(log, Interrupted(w, Head(others)), m.w, Drive(m.w, m.session, Tail(others)));
        // The error raised here reaches the same handler as a failed precheck.
        FailedTail(failed, Tail(others));
        return Some(FailoverPrecheckFailed);
      }
      CompletePromotion(s);
      ghost var m := Machine(Current(), None);
      DriveStep(w, s, others, m);
      CommitsJoin(log, Interrupted(w, Head(others)), m.w, []);
      assert commits + [] == commits;
      return None;
    }

    method FailedTail(s: Session, others: seq<seq<Interruption>>)
      requires s.Promotion? && s.stage.ToAbandon? && events != []
      modifies this
      ensures commits == old(commits) + Drive(old(Current()), Some(s), others)
      ensures commits != [] && commits[|commits| - 1] == Current()
    {
      ghost var log, w := commits, Current();
      LetOthersCommit(Head(others));
      AbandonPromotion(s, FailoverPrecheckFailed);
      ghost var m := Machine(Current(), None);
      DriveStep(w, s, others, m);
      CommitsJoin(log, Interrupted(w, Head(others)), m.w, []);
      assert commits + [] == commits;
    }

    /** Past the precheck: the switch and the verification. */
    method SwitchAndVerify(s: Session, others: seq<seq<Interruption>>) returns (error: Option<Error>)
      requires s.Promotion? && s.stage.ToSwitch? && events != []
      modifies this
      ensures commits == old(commits) + Drive(old(Current()), Some(s), others)
      ensures commits != [] && commits[|commits| - 1] == Current()
      ensures error == if VerificationPasses(s.q) then None else Some(FailoverPrecheckFailed)
    {
      ghost var log, w := commits, Current();
      LetOthersCommit(Head(others));
      var switched := SwitchPrimary(s);
      ghost var m := Machine(Current(), Some(switched));
      DriveStep(w, s, others, m);
      CommitsJoin(log, Interrupted(w, Head(others)), m.w, Drive(m.w, m.session, Tail(others)));
      error := VerifyPromotion(switched, Tail(others));
    }

    method VerifyPromotion(s: Session, others: seq<seq<Interruption>>) returns (error: Option<Error>)
      requires s.Promotion? && s.stage.ToVerify? && events != []
      modifies this
      ensures commits == old(commits) + Drive(old(Current()), Some(s), others)
      ensures commits != [] && commits[|commits| - 1] == Current()
      ensures error == if VerificationPasses(s.q) then None else Some(FailoverPrecheckFailed)
    {
      ghost var log, w := commits, Current();
      LetOthersCommit(Head(others));
      var verifying := BeginVerification(s);
      ghost var m := Machine(Current(), Some(verifying));
      DriveStep(w, s, others, m);
      CommitsJoin(log, Interrupted(w, Head(others)), m.w, Drive(m.w, m.session, Tail(others)));
      error := ConcludePromotion(verifying, Tail(others));
    }

    /** From the precheck on. */
    method ExecutePromotion(s: Session, others: seq<seq<Interruption>>) returns (error: Option<Error>)
      requires s.Promotion? && s.stage.ToCheck? && events != []
      modifies this
      ensures commits == old(commits) + Drive(old(Current()), Some(s), others)
      ensures commits != [] && commits[|commits| - 1] == Current()
      ensures error == PromotionError(s.q)
    {
      ghost var log, w := commits, Current();
      LetOthersCommit(Head(others));
      var validated, refusal := CheckPromotion(s);
      ghost var m := Machine(Current(), validated);
      DriveStep(w, s, others, m);
      CommitsJoin(log, Interrupted(w, Head(others)), m.w, Drive(m.w, m.session, Tail(others)));
      if refusal.Some? {
        assert commits + [] == commits;
        return refusal;
      }
      error := SwitchAndVerify(validated.value, Tail(others));
    }

    /** The freeze, if the instance asks for one, and what follows. */
    method FreezeAndExecute(s: Session, others: seq<seq<Interruption>>) returns (error: Option<Error>)
      requires s.Promotion? && s.stage.ToFreeze? && events != []
      modifies this
      ensures commits == old(commits) + Drive(old(Current()), Some(s), others)
      ensures commits != [] && commits[|commits| - 1] == Current()
      ensures error == PromotionError(s.q)
    {
      ghost var log, w := commits, Current();
      LetOthersCommit(Head(others));
      var frozen := FreezeForPromotion(s);
      ghost var m := Machine(Current(), Some(frozen));
      DriveStep(w, s, others, m);
      CommitsJoin(log, Interrupted(w, Head(others)), m.w, Drive(m.w, m.session, Tail(others)));
      error := ExecutePromotion(frozen, Tail(others));
    }

    method StartPromotion(s: Session, others: seq<seq<Interruption>>) returns (error: Option<Error>)
      requires s.Promotion? && s.stage.ToRequest?
      modifies this
      ensures commits == old(commits) + Drive(old(Current()), Some(s), others)
      ensures commits != [] && commits[|commits| - 1] == Current()
      ensures error == PromotionError(s.q)
    {
      ghost var log, w := commits, Current();
      LetOthersCommit(Head(others));
      var requested := RequestPromotion(s);
      ghost var m := Machine(Current(), Some(requested));
      DriveStep(w, s, others, m);
      CommitsJoin(log, Interrupted(w, Head(others)), m.w, Drive(m.w, m.session, Tail(others)));
      if requested.stage.ToFreeze? {
        error := FreezeAndExecute(requested, Tail(others));
      } else {
        error := ExecutePromotion(requested, Tail(others));
      }
    }

    /** What a promotion answers before it touches anything, if it goes no further. */
    method GuardPromotion(q: PromoteRequest) returns (answer: Option<Outcome>)
      ensures answer == PromoteGuard(Current(), q)
    {
      if !q.instance.enabled {
        return Some(Err(FailoverNotAllowed));
      }
      if q.target != q.instance.regionId {
        return Some(Err(FailoverPrecheckFailed));
      }
      var existing := LatestEvent(events, q.requestId);
      if existing.Some? && FinishedStatus(events[existing.value].status) {
        return Some(Ok(Report(Current(), existing.value)));
      }
      if q.lockBusy {
        return Some(Err(FailoverInProgress));
      }
      if cooldownUntil.Some? && cooldownUntil.value > q.now {
        return Some(Err(FailoverCooldownActive));
      }
      return None;
    }

    method PromoteRegion(q: PromoteRequest, others: seq<seq<Interruption>>) returns (outcome: Outcome)
      modifies this
      ensures commits == old(commits) + PromoteCommits(old(Current()), hash, q, others)
      ensures Current() == LastOr(old(Current()), PromoteCommits(old(Current()), hash, q, others))
      ensures outcome == PromoteOutcome(old(Current()), hash, q)
    {
      ghost var log, w := commits, Current();
      assert log + [] == log;
      var answer := GuardPromotion(q);
      if answer.Some? {
        return answer.value;
      }
      var held, id := Row(), |events|;
      var token := ConsumeToken(q.token, PROMOTE, q.tokenNow);
      if token.None? {
        return Err(FailoverTokenInvalid);
      }
      ghost var used := Current();
      assert token == PromoteToken(w, hash, q) && used == UseToken(w, token.value, q.tokenNow);
      outcome := RunPromotion(q, token.value, held, id, others);
      AfterToken(log, w, used, Drive(used, Some(Opened(held, q, token.value)), others), Current());
    }

    /** A promotion that has its token, from its request to its end. */
    method RunPromotion(q: PromoteRequest, token: nat, held: Cluster, id: nat, others: seq<seq<Interruption>>)
      returns (outcome: Outcome)
      modifies this
      ensures commits == old(commits) + Drive(old(Current()), Some(Opened(held, q, token)), others)
      ensures commits != [] && commits[|commits| - 1] == Current()
      ensures outcome == StartOutcome(id, held, q)
    {
      var event := Event(held.primary, q.target, StatusRequested, token, q.requestId, [Idle], [], None);
      var session := Promotion(q, token, held, held, event, ToRequest);
      assert session == Opened(held, q, token);
      var error := StartPromotion(session, others);
      outcome := EndOutcome(q, held, id, error);
    }

    method EndOutcome(q: PromoteRequest, held: Cluster, id: nat, error: Option<Error>) returns (outcome: Outcome)
      requires error == PromotionError(q)
      ensures outcome == StartOutcome(id, held, q)
    {
      if error.Some? {
        return Err(error.value);
      }
      outcome := Ok(TransitionResult(id, StatusCompleted, held.primary, q.target, held.epoch + 1, false,
                                     Blockers(q.instance, q.probe)));
    }

    /** What a rollback answers before it touches anything, if it goes no further. */
    method GuardRollback(q: RollbackRequest) returns (refusal: Option<Error>)
      ensures refusal == RollbackGuard(Current(), q)
    {
      if !q.instance.enabled {
        return Some(FailoverNotAllowed);
      }
      if q.lockBusy {
        return Some(FailoverInProgress);
      }
      if cooldownUntil.Some? && cooldownUntil.value > q.now {
        return Some(FailoverCooldownActive);
      }
      return None;
    }

    method RollbackFailover(q: RollbackRequest, others: seq<seq<Interruption>>) returns (outcome: Outcome)
      modifies this
      ensures commits == old(commits) + RollbackCommits(old(Current()), hash, q, others)
      ensures Current() == LastOr(old(Current()), RollbackCommits(old(Current()), hash, q, others))
      ensures outcome == RollbackOutcome(old(Current()), hash, q)
    {
      ghost var log, w := commits, Current();
      assert log + [] == log;
      var refusal := GuardRollback(q);
      if refusal.Some? {
        return Err(refusal.value);
      }
      var held := Row();
      var token := ConsumeToken(q.token, ROLLBACK, q.tokenNow);
      if token.None? {
        return Err(FailoverTokenInvalid);
      }
      ghost var used := Current();
      assert token == RollbackToken(w, hash, q);
      if held.previousPrimary.None? || held.previousPrimary.value == "" {
        AfterToken(log, w, used, [], used);
        assert commits + [] == commits;
        return Err(FailoverNotAllowed);
      }
      outcome := Revert(q, token.value, held, others);
      AfterToken(log, w, used, Drive(used, OpenedReversal(held, q, token.value), others), Current());
    }

    /** The one commit of a rollback that changes the row. */
    method RevertRow(q: RollbackRequest, token: nat, loaded: Cluster)
      requires HasPrevious(loaded)
      modifies this
      ensures Current() == Reverted(old(Current()), q, token, loaded, loaded.previousPrimary.value)
      ensures commits == old(commits) + [Current()]
    {
      var back := loaded.previousPrimary.value;
      var event := Event(loaded.primary, back, StatusExecuting, token, q.requestId, [RollbackPending], [], None);
      var held := loaded.(primary := back, epoch := loaded.epoch + 1, lastTransitionAt := q.now);
      held := held.(cooldownUntil := Some(q.now + q.instance.cooldownSeconds), freezeWrites := false, state := RolledBack);
      event := event.(status := StatusRolledBack, history := [RollbackPending, RolledBack]);
      SaveRow(loaded, held);
      events := events + [event];
      Commit();
    }

    method Revert(q: RollbackRequest, token: nat, loaded: Cluster, others: seq<seq<Interruption>>) returns (outcome: Outcome)
      requires HasPrevious(loaded)
      modifies this
      ensures commits == old(commits) + Drive(old(Current()), OpenedReversal(loaded, q, token), others)
      ensures commits != [] && commits[|commits| - 1] == Current()
      ensures outcome == RevertOutcome(|old(events)|, loaded)
    {
      ghost var log, w, s := commits, Current(), OpenedReversal(loaded, q, token).value;
      var id := |events|;
      LetOthersCommit(Head(others));
      RevertRow(q, token, loaded);
      ghost var m := Machine(Current(), None);
      DriveStep(w, s, others, m);
      CommitsJoin(log, Interrupted(w, Head(others)), m.w, []);
      assert commits + [] == commits;
      outcome := Ok(TransitionResult(id, StatusRolledBack, loaded.primary, loaded.previousPrimary.value, loaded.epoch + 1,
                                     false, []));
    }
  }
}
