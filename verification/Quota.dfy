/** Day and month request quotas of a tenant: counters updated together under their
    row locks, a hard cap that blocks, and soft-cap markers kept once per period. */
module Quota {
  import opened Wrappers

  /** A UTC calendar date; the time of day plays no part. */
  datatype Date = Date(year: int, month: int, day: int)

  datatype Period = Day | Month

  datatype Key = Key(tenant: string, period: Period, start: Date)

  datatype Plan = Plan(daily: Option<int>, monthly: Option<int>, softCapRatio: real, hardCap: bool)

  const NO_PLAN := Plan(None, None, 0.8, true)

  datatype Snapshot = Snapshot(limit: Option<int>, used: int, remaining: Option<int>)

  datatype QuotaResult = QuotaResult(
    allowed: bool,
    day: Snapshot,
    month: Snapshot,
    softCapReached: bool,
    hardCapMode: string,
    blockedPeriod: Option<Period>)

  /** A request, with the plan in force when it arrives. */
  datatype Request = Request(tenant: string, now: Date, cost: nat, plan: Plan)

  function DayStart(now: Date): Date {
    now
  }

  function MonthStart(now: Date): Date {
    Date(now.year, now.month, 1)
  }

  function DayKey(r: Request): Key {
    Key(r.tenant, Day, DayStart(r.now))
  }

  function MonthKey(r: Request): Key {
    Key(r.tenant, Month, MonthStart(r.now))
  }

  function TakeSnapshot(limit: Option<int>, used: int): Snapshot {
    if limit.None? then Snapshot(None, used, None)
    else Snapshot(limit, used, Some(if limit.value - used > 0 then limit.value - used else 0))
  }

  predicate PeriodSoftCapReached(snapshot: Snapshot, ratio: real) {
    snapshot.limit.Some? && snapshot.limit.value > 0 && snapshot.used as real >= snapshot.limit.value as real * ratio
  }

  predicate SoftCapReached(day: Snapshot, month: Snapshot, ratio: real) {
    PeriodSoftCapReached(day, ratio) || PeriodSoftCapReached(month, ratio)
  }

  predicate Exceeds(limit: Option<int>, used: int) {
    limit.Some? && used > limit.value
  }

  // ------------------------------------------------------- one request, as functions

  datatype State = State(counters: map<Key, nat>, softCaps: set<Key>)

  function Used(s: State, key: Key): nat {
    if key in s.counters then s.counters[key] else 0
  }

  predicate Blocked(s: State, r: Request) {
    r.plan.hardCap &&
    (Exceeds(r.plan.daily, Used(s, DayKey(r)) + r.cost) || Exceeds(r.plan.monthly, Used(s, MonthKey(r)) + r.cost))
  }

  /** What a request costs: nothing when it is refused. */
  function Cost(s: State, r: Request): nat {
    if Blocked(s, r) then 0 else r.cost
  }

  function DaySnapshot(s: State, r: Request): Snapshot {
    TakeSnapshot(r.plan.daily, Used(s, DayKey(r)) + Cost(s, r))
  }

  function MonthSnapshot(s: State, r: Request): Snapshot {
    TakeSnapshot(r.plan.monthly, Used(s, MonthKey(r)) + Cost(s, r))
  }

  function Answer(s: State, r: Request): QuotaResult {
    QuotaResult(!Blocked(s, r), DaySnapshot(s, r), MonthSnapshot(s, r),
                SoftCapReached(DaySnapshot(s, r), MonthSnapshot(s, r), r.plan.softCapRatio),
                if r.plan.hardCap then "enforce" else "observe",
                if !Blocked(s, r) then None
                else Some(if Exceeds(r.plan.monthly, Used(s, MonthKey(r)) + r.cost) then Month else Day))
  }

  /** The periods that snapshots show at their soft cap, by key. */
  function SoftCapKeys(r: Request, day: Snapshot, month: Snapshot): set<Key> {
    (if PeriodSoftCapReached(day, r.plan.softCapRatio) then {DayKey(r)} else {})
    + (if PeriodSoftCapReached(month, r.plan.softCapRatio) then {MonthKey(r)} else {})
  }

  /** Of those, the ones not marked before. */
  function NewSoftCaps(r: Request, keys: set<Key>, marked: set<Key>): seq<Period> {
    (if DayKey(r) in keys && DayKey(r) !in marked then [Day] else [])
    + (if MonthKey(r) in keys && MonthKey(r) !in marked then [Month] else [])
  }

  /** The markers a request sets: those of the periods it brings to their soft cap. */
  function Marks(s: State, r: Request): set<Key> {
    if Blocked(s, r) then {} else SoftCapKeys(r, DaySnapshot(s, r), MonthSnapshot(s, r))
  }

  function Next(s: State, r: Request): State {
    State(s.counters[DayKey(r) := Used(s, DayKey(r)) + Cost(s, r)][MonthKey(r) := Used(s, MonthKey(r)) + Cost(s, r)],
          s.softCaps + Marks(s, r))
  }

  /** The soft-cap events a request emits: the markers that were not yet there. */
  function Events(s: State, r: Request): seq<Period> {
    NewSoftCaps(r, Marks(s, r), s.softCaps)
  }

  function PlanInForce(planLimit: Option<Plan>): Plan {
    if planLimit.Some? then planLimit.value else NO_PLAN
  }

  /** Creating the two counters first makes no difference to charging them. */
  lemma CountersRefreshed(before: map<Key, nat>, r: Request, day: nat, month: nat, after: map<Key, nat>)
    requires after == before[DayKey(r) := day][MonthKey(r) := month]
    ensures after[DayKey(r) := day + r.cost][MonthKey(r) := month + r.cost]
         == before[DayKey(r) := day + r.cost][MonthKey(r) := month + r.cost]
  {
  }

  class QuotaService {
    var counters: map<Key, nat>
    var softCaps: set<Key>

    constructor ()
      ensures Current() == State(map[], {})
    {
      counters, softCaps := map[], {};
    }

    function Current(): State
      reads this
    {
      State(counters, softCaps)
    }

    method GetOrCreateCounter(key: Key) returns (count: nat)
      modifies `counters
      ensures count == Used(old(Current()), key)
      ensures counters == old(counters)[key := count]
    {
      if key !in counters {
        counters := counters[key := 0];
      }
      count := counters[key];
      assert counters == counters[key := count];
    }

    method TryInsertSoftCap(key: Key) returns (inserted: bool)
      modifies `softCaps
      ensures inserted == (key !in old(softCaps))
      ensures softCaps == old(softCaps) + {key}
    {
      inserted := key !in softCaps;
      softCaps := softCaps + {key};
    }

    method InsertSoftCapEvent(r: Request, day: Snapshot, month: Snapshot) returns (inserted: seq<Period>)
      modifies `softCaps
      ensures softCaps == old(softCaps) + SoftCapKeys(r, day, month)
      ensures inserted == NewSoftCaps(r, SoftCapKeys(r, day, month), old(softCaps))
    {
      inserted := [];
      if PeriodSoftCapReached(day, r.plan.softCapRatio) {
        var added := TryInsertSoftCap(DayKey(r));
        if added {
          inserted := inserted + [Day];
        }
      }
      if PeriodSoftCapReached(month, r.plan.softCapRatio) {
        var added := TryInsertSoftCap(MonthKey(r));
        if added {
          inserted := inserted + [Month];
        }
      }
    }

    method CheckAndConsumeQuota(tenant: string, now: Date, cost: nat, planLimit: Option<Plan>)
      returns (result: QuotaResult, softCapPeriods: seq<Period>)
      modifies this
      ensures var r := Request(tenant, now, cost, if planLimit.Some? then planLimit.value else NO_PLAN);
              && result == Answer(old(Current()), r)
              && Current() == Next(old(Current()), r)
              && softCapPeriods == Events(old(Current()), r)
    {
      var plan := PlanInForce(planLimit);
      var r := Request(tenant, now, cost, plan);
      var dayUsed := GetOrCreateCounter(DayKey(r));
      var monthUsed := GetOrCreateCounter(MonthKey(r));
      var dayExceeded := Exceeds(plan.daily, dayUsed + cost);
      var monthExceeded := Exceeds(plan.monthly, monthUsed + cost);

      if plan.hardCap && (dayExceeded || monthExceeded) {
        var day, month := TakeSnapshot(plan.daily, dayUsed), TakeSnapshot(plan.monthly, monthUsed);
        result := QuotaResult(false, day, month, SoftCapReached(day, month, plan.softCapRatio), "enforce",
                              Some(if monthExceeded then Month else Day));
        return result, [];
      }
      CountersRefreshed(old(counters), r, dayUsed, monthUsed, counters);
      result, softCapPeriods := Consume(r, dayUsed, monthUsed);
    }

    /** Charges an admitted request to both counters. */
    method Consume(r: Request, dayUsed: nat, monthUsed: nat) returns (result: QuotaResult, softCapPeriods: seq<Period>)
      modifies this
      ensures counters == old(counters)[DayKey(r) := dayUsed + r.cost][MonthKey(r) := monthUsed + r.cost]
      ensures var day, month := TakeSnapshot(r.plan.daily, dayUsed + r.cost), TakeSnapshot(r.plan.monthly, monthUsed + r.cost);
              && result == QuotaResult(true, day, month, SoftCapReached(day, month, r.plan.softCapRatio),
                                       if r.plan.hardCap then "enforce" else "observe", None)
              && softCaps == old(softCaps) + SoftCapKeys(r, day, month)
              && softCapPeriods == NewSoftCaps(r, SoftCapKeys(r, day, month), old(softCaps))
    {
      var dayProposed, monthProposed := dayUsed + r.cost, monthUsed + r.cost;
      counters := counters[DayKey(r) := dayProposed];
      counters := counters[MonthKey(r) := monthProposed];
      var day, month := TakeSnapshot(r.plan.daily, dayProposed), TakeSnapshot(r.plan.monthly, monthProposed);
      var softCapReached := SoftCapReached(day, month, r.plan.softCapRatio);
      softCapPeriods := [];
      if softCapReached {
        softCapPeriods := InsertSoftCapEvent(r, day, month);
      }
      result := QuotaResult(true, day, month, softCapReached, if r.plan.hardCap then "enforce" else "observe", None);
    }
  }

  // -------------------------------------------------------------------------- runs

  const START := State(map[], {})

  /** What a run leaves behind: the requests, the states around them, the answers. */
  datatype Run = Run(rs: seq<Request>, ss: seq<State>, answers: seq<QuotaResult>)

  predicate Shaped(run: Run) {
    |run.ss| == |run.rs| + 1 && |run.answers| == |run.rs|
  }

  ghost predicate StepAt(run: Run, i: nat)
    requires Shaped(run) && i < |run.rs|
  {
    run.ss[i + 1] == Next(run.ss[i], run.rs[i]) && run.answers[i] == Answer(run.ss[i], run.rs[i])
  }

  /** Any requests, from an empty database. */
  ghost predicate IsRun(run: Run) {
    Shaped(run) && run.ss[0] == START && forall i: nat | i < |run.rs| :: StepAt(run, i)
  }

  /** The request falls in the period: on that day, or in the month that begins then. */
  predicate Counts(r: Request, key: Key) {
    && key.tenant == r.tenant
    && if key.period.Day? then key.start == r.now else key.start == Date(r.now.year, r.now.month, 1)
  }

  /** What a request adds to a period, by its answer. */
  function Spent(r: Request, answer: QuotaResult, key: Key): nat {
    if answer.allowed && Counts(r, key) then r.cost else 0
  }

  /** The admitted cost of the first `n` requests that falls in a period. */
  function AdmittedCost(run: Run, n: nat, key: Key): nat
    requires Shaped(run) && n <= |run.rs|
  {
    if n == 0 then 0 else AdmittedCost(run, n - 1, key) + Spent(run.rs[n - 1], run.answers[n - 1], key)
  }

  lemma NextSpends(s: State, r: Request, key: Key)
    ensures Used(Next(s, r), key) == Used(s, key) + Spent(r, Answer(s, r), key)
  {
  }

  /** Conservation: every counter is the sum of the admitted costs of its period. */
  lemma {:induction false} CountersAreAdmittedCosts(run: Run, n: nat, key: Key)
    requires IsRun(run) && n <= |run.rs|
    ensures Used(run.ss[n], key) == AdmittedCost(run, n, key)
  {
    if n > 0 {
      CountersAreAdmittedCosts(run, n - 1, key);
      assert StepAt(run, n - 1);
      NextSpends(run.ss[n - 1], run.rs[n - 1], key);
    }
  }

  function SumOfDays(s: State, tenant: string, year: int, month: int, days: nat): nat {
    if days == 0 then 0
    else SumOfDays(s, tenant, year, month, days - 1) + Used(s, Key(tenant, Day, Date(year, month, days)))
  }

  lemma {:induction false} SumOfDaysAfter(s: State, r: Request, month: Key, days: nat)
    requires 1 <= r.now.day && month == Key(month.tenant, Month, MonthStart(month.start))
    ensures SumOfDays(Next(s, r), month.tenant, month.start.year, month.start.month, days)
         == SumOfDays(s, month.tenant, month.start.year, month.start.month, days)
            + if r.now.day <= days then Spent(r, Answer(s, r), month) else 0
  {
    if days > 0 {
      SumOfDaysAfter(s, r, month, days - 1);
      NextSpends(s, r, Key(month.tenant, Day, Date(month.start.year, month.start.month, days)));
    }
  }

  /** In every reachable state a month's counter is the sum of its days' counters. */
  lemma {:induction false} MonthIsSumOfDays(run: Run, n: nat, month: Key)
    requires IsRun(run) && n <= |run.rs|
    requires forall i | 0 <= i < |run.rs| :: 1 <= run.rs[i].now.day <= 31
    requires month == Key(month.tenant, Month, MonthStart(month.start))
    ensures Used(run.ss[n], month) == SumOfDays(run.ss[n], month.tenant, month.start.year, month.start.month, 31)
  {
    if n == 0 {
      NoDays(month.tenant, month.start.year, month.start.month, 31);
    } else {
      MonthIsSumOfDays(run, n - 1, month);
      assert StepAt(run, n - 1);
      NextSpends(run.ss[n - 1], run.rs[n - 1], month);
      SumOfDaysAfter(run.ss[n - 1], run.rs[n - 1], month, 31);
    }
  }

  lemma {:induction false} NoDays(tenant: string, year: int, month: int, days: nat)
    ensures SumOfDays(START, tenant, year, month, days) == 0
  {
    if days > 0 {
      NoDays(tenant, year, month, days - 1);
    }
  }

  /** A refusal changes no counter and no marker, and emits nothing. */
  lemma RefusalChangesNothing(s: State, r: Request, key: Key)
    requires !Answer(s, r).allowed
    ensures Next(s, r).softCaps == s.softCaps && Events(s, r) == [] && Used(Next(s, r), key) == Used(s, key)
  {
    assert Blocked(s, r) && Marks(s, r) == {};
  }

  /** What the caller is told agrees with the counters left behind. */
  lemma AnswerReportsCounters(s: State, r: Request, key: Key)
    requires Counts(r, key)
    ensures Reports(SnapshotOf(Answer(s, r), key.period), LimitOf(r.plan, key.period), Used(Next(s, r), key))
    ensures Answer(s, r).hardCapMode == if r.plan.hardCap then "enforce" else "observe"
    ensures Answer(s, r).allowed <==> Answer(s, r).blockedPeriod == None
  {
    NextSpends(s, r, key);
  }

  function SnapshotOf(answer: QuotaResult, period: Period): Snapshot {
    if period.Day? then answer.day else answer.month
  }

  /** The snapshot shows the limit, what is used, and what the limit leaves: nothing once it
      is used up, and no number where there is no limit. */
  predicate Reports(snapshot: Snapshot, limit: Option<int>, used: int) {
    && snapshot.limit == limit && snapshot.used == used && (snapshot.remaining.Some? <==> limit.Some?)
    && (limit.Some? && used <= limit.value ==> used + snapshot.remaining.value == limit.value)
    && (limit.Some? && used > limit.value ==> snapshot.remaining.value == 0)
  }

  /** The caller is told that the soft cap is reached exactly when the day or the month that
      the request falls in stands at its own. */
  lemma AnswerTellsSoftCap(s: State, r: Request)
    ensures Answer(s, r).softCapReached
       <==> || AtSoftCap(r.plan, Day, Used(Next(s, r), Key(r.tenant, Day, r.now)))
            || AtSoftCap(r.plan, Month, Used(Next(s, r), Key(r.tenant, Month, Date(r.now.year, r.now.month, 1))))
  {
    NextSpends(s, r, DayKey(r));
    NextSpends(s, r, MonthKey(r));
    SoftCapOfSnapshot(r.plan, Day, Used(s, DayKey(r)) + Cost(s, r));
    SoftCapOfSnapshot(r.plan, Month, Used(s, MonthKey(r)) + Cost(s, r));
  }

  lemma SoftCapOfSnapshot(plan: Plan, period: Period, used: int)
    ensures PeriodSoftCapReached(TakeSnapshot(LimitOf(plan, period), used), plan.softCapRatio)
       <==> AtSoftCap(plan, period, used)
  {
  }

  /** A request is refused exactly when the cap is hard and what was admitted before
      it in the day or the month leaves too little room for its cost; the answer names
      the month when both are short. */
  lemma BlockedExactlyOnOverrun(run: Run, i: nat)
    requires IsRun(run) && i < |run.rs|
    ensures var r := run.rs[i];
            var day, month := Key(r.tenant, Day, r.now), Key(r.tenant, Month, Date(r.now.year, r.now.month, 1));
            var dayShort := r.plan.daily.Some? && AdmittedCost(run, i, day) + r.cost > r.plan.daily.value;
            var monthShort := r.plan.monthly.Some? && AdmittedCost(run, i, month) + r.cost > r.plan.monthly.value;
            && (run.answers[i].allowed <==> !(r.plan.hardCap && (dayShort || monthShort)))
            && (!run.answers[i].allowed ==>
                  run.answers[i].blockedPeriod == Some(if monthShort then Month else Day))
  {
    AnswerAt(run, i);
    CountersAreAdmittedCosts(run, i, DayKey(run.rs[i]));
    CountersAreAdmittedCosts(run, i, MonthKey(run.rs[i]));
    AnswerOnOverrun(run.ss[i], run.rs[i], AdmittedCost(run, i, DayKey(run.rs[i])), AdmittedCost(run, i, MonthKey(run.rs[i])));
  }

  lemma AnswerAt(run: Run, i: nat)
    requires IsRun(run) && i < |run.rs|
    ensures run.answers[i] == Answer(run.ss[i], run.rs[i])
  {
    assert StepAt(run, i);
  }

  lemma AnswerOnOverrun(s: State, r: Request, day: nat, month: nat)
    requires day == Used(s, DayKey(r)) && month == Used(s, MonthKey(r))
    ensures Answer(s, r).allowed
       <==> !(r.plan.hardCap && (Exceeds(r.plan.daily, day + r.cost) || Exceeds(r.plan.monthly, month + r.cost)))
    ensures !Answer(s, r).allowed ==>
              Answer(s, r).blockedPeriod == Some(if Exceeds(r.plan.monthly, month + r.cost) then Month else Day)
  {
  }

  /** A tenant without a plan is never refused, and never near a cap. */
  lemma NoPlanNoLimits(s: State, tenant: string, now: Date, cost: nat)
    ensures var r := Request(tenant, now, cost, NO_PLAN);
            Answer(s, r).allowed && !Answer(s, r).softCapReached && Answer(s, r).hardCapMode == "enforce" && Events(s, r) == []
  {
  }

  function LimitOf(plan: Plan, period: Period): Option<int> {
    if period.Day? then plan.daily else plan.monthly
  }

  lemma NextWithinLimit(s: State, r: Request, key: Key)
    requires r.plan.hardCap && LimitOf(r.plan, key.period).Some? && Used(s, key) <= LimitOf(r.plan, key.period).value
    ensures Used(Next(s, r), key) <= LimitOf(r.plan, key.period).value
  {
  }

  /** Under one plan with the hard cap on, no counter of the tenant passes its limit. */
  lemma {:induction false} HardCapHolds(run: Run, n: nat, key: Key, plan: Plan)
    requires IsRun(run) && n <= |run.rs| && plan.hardCap
    requires forall i | 0 <= i < |run.rs| && run.rs[i].tenant == key.tenant :: run.rs[i].plan == plan
    requires LimitOf(plan, key.period).Some? && LimitOf(plan, key.period).value >= 0
    ensures Used(run.ss[n], key) <= LimitOf(plan, key.period).value
  {
    if n > 0 {
      HardCapHolds(run, n - 1, key, plan);
      assert StepAt(run, n - 1);
      NextSpends(run.ss[n - 1], run.rs[n - 1], key);
      if run.rs[n - 1].tenant == key.tenant {
        NextWithinLimit(run.ss[n - 1], run.rs[n - 1], key);
      }
    }
  }

  // ------------------------------------------------------------------- soft-cap events

  /** The request emits the soft-cap event of period `key`. */
  predicate Fires(s: State, r: Request, key: Key) {
    (key == DayKey(r) && Day in Events(s, r)) || (key == MonthKey(r) && Month in Events(s, r))
  }

  /** The period has a limit, and this much is no less than the plan's share of it. */
  predicate AtSoftCap(plan: Plan, period: Period, used: int) {
    var limit := if period.Day? then plan.daily else plan.monthly;
    limit.Some? && limit.value > 0 && used as real >= limit.value as real * plan.softCapRatio
  }

  /** Request `i` is admitted, falls in period `key`, and finds or brings the period's
      admitted cost to the soft cap of its plan. */
  predicate Reaches(run: Run, i: nat, key: Key)
    requires Shaped(run) && i < |run.rs|
  {
    && run.answers[i].allowed && Counts(run.rs[i], key)
    && AtSoftCap(run.rs[i].plan, key.period, AdmittedCost(run, i + 1, key))
  }

  lemma MarksExactly(s: State, r: Request, key: Key)
    ensures key in Next(s, r).softCaps
       <==> || key in s.softCaps
            || (Answer(s, r).allowed && Counts(r, key) && AtSoftCap(r.plan, key.period, Used(Next(s, r), key)))
    ensures Fires(s, r, key) <==> key in Next(s, r).softCaps && key !in s.softCaps
  {
    NextSpends(s, r, key);
    SoftCapOfSnapshot(r.plan, key.period, Used(s, key) + Cost(s, r));
  }

  lemma {:induction false} MarkedOnceReached(run: Run, n: nat, key: Key)
    requires IsRun(run) && n <= |run.rs|
    ensures key in run.ss[n].softCaps <==> exists i: nat :: i < n && Reaches(run, i, key)
  {
    if n > 0 {
      MarkedOnceReached(run, n - 1, key);
      assert StepAt(run, n - 1);
      MarksExactly(run.ss[n - 1], run.rs[n - 1], key);
      CountersAreAdmittedCosts(run, n, key);
      assert key in run.ss[n].softCaps <==> key in run.ss[n - 1].softCaps || Reaches(run, n - 1, key);
    }
  }

  /** The soft-cap event of a period is emitted by the first admitted request that
      finds or brings the period at its soft cap, and by no other. */
  lemma SoftCapFiresOnFirstReach(run: Run, i: nat, key: Key)
    requires IsRun(run) && i < |run.rs|
    ensures Fires(run.ss[i], run.rs[i], key)
       <==> Reaches(run, i, key) && forall j: nat | j < i :: !Reaches(run, j, key)
  {
    MarkedOnceReached(run, i, key);
    MarksExactly(run.ss[i], run.rs[i], key);
    assert StepAt(run, i);
    CountersAreAdmittedCosts(run, i + 1, key);
  }
}
