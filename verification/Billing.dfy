/** Billing over whole runs: periods tile time, nothing is billed early, the scheduler
    catches up, and failures follow the dunning schedule. */
module Billing {
  import opened Calendar
  import opened Measures
  import opened Subscriptions

  // ---- runs ----------------------------------------------------------------------

  /** One successful charge and the period it paid for. */
  datatype Bill = Bill(at: nat, start: nat, end: nat, automatic: bool)

  /** `origins` is where a subscription's paid time begins: at enrolment, or when the trial ends. */
  datatype State = State(subs: Book, bills: map<string, seq<Bill>>, origins: map<string, nat>)

  datatype Op =
    | Subscribe(id: string, cadence: Cadence, trialDays: nat, at: nat, txn: string)
    | Tick(at: nat, schedule: Schedule, charges: map<string, Charge>)
    | Renew(id: string, at: nat, txn: string)
    | Pause(id: string)
    | Cancel(id: string)

  function Init(): State { State(map[], map[], map[]) }

  predicate Enabled(s: State, op: Op) {
    match op
    case Subscribe(id, _, days, _, _) => id !in s.subs && days <= MAX_TRIAL_DAYS
    case Tick(_, _, charges) => forall id <- s.subs :: id in charges
    case Renew(id, _, _) => id in s.subs && Renewable(s.subs[id])
    case Pause(id) => id in s.subs && s.subs[id].status != Canceled
    case Cancel(id) => id in s.subs && s.subs[id].status != Canceled
  }

  function BillOf(s: Subscription, at: nat, automatic: bool): Bill {
    Bill(at, s.periodStart, s.periodEnd, automatic)
  }

  function BillsAfter(s: State, id: string, at: nat, automatic: bool, now: Subscription): seq<Bill> {
    (if id in s.bills then s.bills[id] else []) + [BillOf(now, at, automatic)]
  }

  /** The bills of one subscription after a pass. */
  function TickBills(s: State, id: string, at: nat, schedule: Schedule, c: Charge): seq<Bill>
    requires id in s.subs
  {
    if Due(s.subs[id], at) && c.Charged? then BillsAfter(s, id, at, true, Ticked(s.subs[id], at, schedule, c))
    else if id in s.bills then s.bills[id]
    else []
  }

  function Apply(s: State, op: Op): State
    requires Enabled(s, op)
  {
    match op
    case Subscribe(id, cadence, days, at, txn) =>
      var sub := Enrolled(cadence, days, at, txn);
      State(s.subs[id := sub],
            s.bills[id := if days > 0 then [] else [BillOf(sub, at, false)]],
            s.origins[id := if days > 0 then sub.periodEnd else at])
    case Tick(at, schedule, charges) =>
      State(map id | id in s.subs :: Ticked(s.subs[id], at, schedule, charges[id]),
            map id | id in s.subs :: TickBills(s, id, at, schedule, charges[id]),
            s.origins)
    case Renew(id, at, txn) =>
      var sub := Renewed(s.subs[id], txn);
      s.(subs := s.subs[id := sub], bills := s.bills[id := BillsAfter(s, id, at, false, sub)])
    case Pause(id) => s.(subs := s.subs[id := s.subs[id].(status := Paused)])
    case Cancel(id) => s.(subs := s.subs[id := s.subs[id].(status := Canceled)])
  }

  ghost predicate IsRun(ops: seq<Op>, ss: seq<State>) {
    |ss| == |ops| + 1 && ss[0] == Init()
    && forall i | 0 <= i < |ops| :: Enabled(ss[i], ops[i]) && ss[i + 1] == Apply(ss[i], ops[i])
  }

  // ---- billed periods tile time --------------------------------------------------

  /** Consecutive periods of one cadence from `origin`, none billed by the scheduler before
      it began. */
  ghost predicate Tiles(b: seq<Bill>, cadence: Cadence, origin: nat) {
    (b != [] ==> b[0].start == origin)
    && (forall i | 0 <= i < |b| - 1 :: b[i + 1].start == b[i].end)
    && (forall i | 0 <= i < |b| :: b[i].end == PeriodAdvance(b[i].start, cadence))
    && (forall i | 0 <= i < |b| :: b[i].automatic ==> b[i].at >= b[i].start)
  }

  predicate SubOk(s: Subscription, b: seq<Bill>, origin: nat) {
    s.nextChargeAt >= s.periodEnd
    && s.chargesCompleted == (if |b| < U32_MAX then |b| else U32_MAX)
    && (if b == [] then s.periodEnd == origin && s.status != Active
        else s.periodStart == b[|b| - 1].start && s.periodEnd == b[|b| - 1].end && s.status != Trialing)
  }

  ghost predicate IdOk(s: State, id: string) {
    id in s.subs ==>
      id in s.bills && id in s.origins && SubOk(s.subs[id], s.bills[id], s.origins[id])
      && Tiles(s.bills[id], s.subs[id].cadence, s.origins[id])
  }

  ghost predicate Inv(s: State) { forall id :: IdOk(s, id) }

  lemma BilledNext(s: Subscription, b: seq<Bill>, origin: nat, txn: string, at: nat, automatic: bool)
    requires SubOk(s, b, origin) && Tiles(b, s.cadence, origin) && (automatic ==> at >= s.periodEnd)
    ensures var a := Advanced(s, txn); var c := b + [BillOf(a, at, automatic)];
            SubOk(a.(status := Active), c, origin) && Tiles(c, s.cadence, origin)
  {
    PeriodAdvanceIncreases(s.periodEnd, s.cadence);
  }

  lemma TickKeepsId(s: State, op: Op, id: string)
    requires op.Tick? && Enabled(s, op) && IdOk(s, id)
    ensures IdOk(Apply(s, op), id)
  {
    if id in s.subs {
      var sub, c := s.subs[id], op.charges[id];
      if Due(sub, op.at) {
        if c.Charged? { BilledNext(sub, s.bills[id], s.origins[id], c.txn, op.at, true); }
        else { MissedKeeps(sub, s.bills[id], s.origins[id], op.at, op.schedule); }
      }
    }
  }

  lemma MissedKeeps(s: Subscription, b: seq<Bill>, origin: nat, now: nat, schedule: Schedule)
    requires SubOk(s, b, origin) && Due(s, now)
    ensures SubOk(Missed(s, now, schedule), b, origin)
  {
  }

  lemma StepKeepsId(s: State, op: Op, id: string)
    requires Enabled(s, op) && IdOk(s, id)
    ensures IdOk(Apply(s, op), id)
  {
    match op
    case Subscribe(_, cadence, _, at, _) => PeriodAdvanceIncreases(at, cadence);
    case Tick(_, _, _) => TickKeepsId(s, op, id);
    case Renew(k, at, txn) =>
      if k == id { BilledNext(s.subs[id], s.bills[id], s.origins[id], txn, at, false); }
    case _ =>
  }

  lemma {:induction false} RunKeeps(ops: seq<Op>, ss: seq<State>, n: nat, id: string)
    requires IsRun(ops, ss) && n <= |ops|
    ensures IdOk(ss[n], id)
  {
    if n > 0 {
      RunKeeps(ops, ss, n - 1, id);
      StepKeepsId(ss[n - 1], ops[n - 1], id);
    }
  }

  lemma PeriodsLast(b: seq<Bill>, cadence: Cadence, origin: nat, i: nat)
    requires Tiles(b, cadence, origin) && i < |b|
    ensures b[i].start < b[i].end
  {
    PeriodAdvanceIncreases(b[i].start, cadence);
  }

  lemma {:induction false} LaterPeriods(b: seq<Bill>, i: nat, j: nat)
    requires i < j < |b|
    requires forall k | 0 <= k < |b| - 1 :: b[k + 1].start == b[k].end
    requires forall k | 0 <= k < |b| :: b[k].start < b[k].end
    ensures b[i].start < b[i].end <= b[j].start
  {
    if i + 1 < j {
      LaterPeriods(b, i, j - 1);
      assert b[j - 1 + 1].start == b[j - 1].end;
    } else {
      assert b[i + 1].start == b[i].end;
    }
  }

  /** Over any run every subscription's bills pay for consecutive periods that start at its
      origin and never overlap; the scheduler bills none before it begins; the counter is the
      number of bills, up to its 32-bit ceiling; and the next charge is never due before the
      paid period ends. */
  lemma PeriodsTileTime(ops: seq<Op>, ss: seq<State>, n: nat, id: string)
    requires IsRun(ops, ss) && n <= |ops| && id in ss[n].subs
    ensures id in ss[n].bills && id in ss[n].origins
    ensures var s, b := ss[n].subs[id], ss[n].bills[id];
            Tiles(b, s.cadence, ss[n].origins[id])
            && (forall i, j | 0 <= i < j < |b| :: b[i].start < b[i].end <= b[j].start)
            && s.chargesCompleted == (if |b| < U32_MAX then |b| else U32_MAX)
            && s.nextChargeAt >= s.periodEnd
            && s.periodEnd == (if b == [] then ss[n].origins[id] else b[|b| - 1].end)
  {
    RunKeeps(ops, ss, n, id);
    var s, b := ss[n].subs[id], ss[n].bills[id];
    forall i | 0 <= i < |b| ensures b[i].start < b[i].end { PeriodsLast(b, s.cadence, ss[n].origins[id], i); }
    forall i, j | 0 <= i < j < |b| ensures b[i].start < b[i].end <= b[j].start { LaterPeriods(b, i, j); }
  }

  // ---- where paid time begins ----------------------------------------------------

  /** Once enrolled, a subscription keeps its place in the book and its origin. */
  lemma {:induction false} OriginStays(ops: seq<Op>, ss: seq<State>, i: nat, n: nat, id: string)
    requires IsRun(ops, ss) && i <= n <= |ops| && id in ss[i].subs && id in ss[i].origins
    ensures id in ss[n].subs && id in ss[n].origins && ss[n].origins[id] == ss[i].origins[id]
  {
    if i < n {
      OriginStays(ops, ss, i, n - 1, id);
      assert ss[n] == Apply(ss[n - 1], ops[n - 1]);
    }
  }

  /** A trial of `d` days lasts exactly that long: no automatic bill comes before it ends, the
      first paid period starts then, and until then that is when the next charge may come. */
  lemma TrialIsFree(ops: seq<Op>, ss: seq<State>, i: nat, n: nat, id: string)
    requires IsRun(ops, ss) && i < n <= |ops|
    requires ops[i].Subscribe? && ops[i].id == id && ops[i].trialDays > 0
    ensures id in ss[n].subs && id in ss[n].bills && ops[i].trialDays <= 366
    ensures var s, b, end := ss[n].subs[id], ss[n].bills[id], ops[i].at + ops[i].trialDays * 86_400 * 1_000_000_000;
            (forall k | 0 <= k < |b| :: b[k].automatic ==> b[k].at >= end)
            && (b != [] ==> b[0].start == end)
            && (b == [] ==> s.periodEnd == end && s.nextChargeAt >= end)
  {
    assert ss[i + 1] == Apply(ss[i], ops[i]);
    OriginStays(ops, ss, i + 1, n, id);
    PeriodsTileTime(ops, ss, n, id);
    var b := ss[n].bills[id];
    forall k | 0 <= k < |b| && b[k].automatic ensures b[k].at >= ss[n].origins[id] {
      assert k > 0 ==> b[0].start < b[0].end <= b[k].start;
    }
  }

  /** And right after enrolment it is the next charge: not due a moment before, due then. */
  lemma TrialEndsOnTime(ops: seq<Op>, ss: seq<State>, i: nat, now: nat)
    requires IsRun(ops, ss) && i < |ops| && ops[i].Subscribe? && ops[i].trialDays > 0
    ensures ops[i].id in ss[i + 1].subs
    ensures var s := ss[i + 1].subs[ops[i].id];
            s.status in {Active, Trialing} && s.hasPayment
            && (s.nextChargeAt <= now <==> now >= ops[i].at + ops[i].trialDays * 86_400 * 1_000_000_000)
  {
    assert ss[i + 1] == Apply(ss[i], ops[i]);
  }

  lemma FirstBillStays(ops: seq<Op>, ss: seq<State>, i: nat, n: nat, id: string)
    requires IsRun(ops, ss) && i <= n <= |ops| && id in ss[i].subs && id in ss[i].bills && ss[i].bills[id] != []
    ensures id in ss[n].bills && ss[n].bills[id] != [] && ss[n].bills[id][0] == ss[i].bills[id][0]
  {
    BillsOnlyGrow(ops, ss, i, n, id);
  }

  /** Without a trial the first bill is made, and its period starts, at enrolment. */
  lemma NoTrialPaysAtOnce(ops: seq<Op>, ss: seq<State>, i: nat, n: nat, id: string)
    requires IsRun(ops, ss) && i < n <= |ops|
    requires ops[i].Subscribe? && ops[i].id == id && ops[i].trialDays == 0
    ensures id in ss[n].bills && ss[n].bills[id] != []
    ensures var first := ss[n].bills[id][0];
            first.at == ops[i].at == first.start && first.end == PeriodAdvance(ops[i].at, ops[i].cadence)
  {
    assert ss[i + 1] == Apply(ss[i], ops[i]);
    FirstBillStays(ops, ss, i + 1, n, id);
  }

  /** A pass bills a subscription exactly when it is active or in its trial, due, and payable,
      and the charge goes through: one bill, at that time, for the period after the last. */
  lemma PassBills(ops: seq<Op>, ss: seq<State>, i: nat, id: string)
    requires IsRun(ops, ss) && i < |ops| && ops[i].Tick? && id in ss[i].subs
    ensures id in ss[i].bills && id in ss[i + 1].bills && id in ss[i + 1].subs && id in ops[i].charges
    ensures var s, b, c := ss[i].subs[id], ss[i].bills[id], ss[i + 1].bills[id];
            if s.status in {Active, Trialing} && s.nextChargeAt <= ops[i].at && s.hasPayment
               && ops[i].charges[id].Charged?
            then c == b + [Bill(ops[i].at, s.periodEnd, PeriodAdvance(s.periodEnd, s.cadence), true)]
                 && ss[i + 1].subs[id].status == Active
            else c == b
  {
    RunKeeps(ops, ss, i, id);
    assert IdOk(ss[i], id);
    assert ss[i + 1] == Apply(ss[i], ops[i]);
  }

  /** What has been billed stays billed. */
  lemma {:induction false} BillsOnlyGrow(ops: seq<Op>, ss: seq<State>, i: nat, j: nat, id: string)
    requires IsRun(ops, ss) && i <= j <= |ops| && id in ss[i].subs
    ensures id in ss[j].subs && id in ss[i].bills && id in ss[j].bills && ss[i].bills[id] <= ss[j].bills[id]
  {
    RunKeeps(ops, ss, j, id);
    if i < j {
      BillsOnlyGrow(ops, ss, i, j - 1, id);
      assert ss[j] == Apply(ss[j - 1], ops[j - 1]);
    } else {
      assert IdOk(ss[i], id);
    }
  }

  /** A paused subscription can only be canceled, a canceled one stays so, and neither is
      billed again: there is no way back. */
  lemma {:induction false} PausedIsFinal(ops: seq<Op>, ss: seq<State>, i: nat, j: nat, id: string)
    requires IsRun(ops, ss) && i <= j <= |ops| && id in ss[i].subs && ss[i].subs[id].status in {Paused, Canceled}
    ensures id in ss[j].subs && ss[j].subs[id].status in {Paused, Canceled}
    ensures ss[i].subs[id].status == Canceled ==> ss[j].subs[id].status == Canceled
    ensures id in ss[i].bills && id in ss[j].bills && ss[j].bills[id] == ss[i].bills[id]
  {
    RunKeeps(ops, ss, i, id);
    assert IdOk(ss[i], id);
    if i < j {
      PausedIsFinal(ops, ss, i, j - 1, id);
      assert ss[j] == Apply(ss[j - 1], ops[j - 1]);
    }
  }

  // ---- catching up ---------------------------------------------------------------

  /** Attempts until the failures run out. */
  function AttemptsLeft(s: Subscription, schedule: Schedule): nat {
    if s.failures < MaxAttempts(schedule) then MaxAttempts(schedule) - s.failures else 1
  }

  function WeeksBehind(s: Subscription, now: nat): nat {
    if s.periodEnd <= now then (now - s.periodEnd) / WEEK else 0
  }

  /** An upper bound on the passes that will still find the subscription due: every charge
      moves the period on by a week at least, every failure uses up an attempt. */
  function PassesLeft(s: Subscription, now: nat, schedule: Schedule): nat {
    if Due(s, now) then WeeksBehind(s, now) * MaxAttempts(schedule) + AttemptsLeft(s, schedule) else 0
  }

  lemma MaxAttemptsBounds(schedule: Schedule)
    requires |schedule| < U32_MAX
    ensures MaxAttempts(schedule) == (if schedule == [] then 3 else |schedule| + 1)
  {
    assert |schedule| % 0x1_0000_0000 == |schedule|;
  }

  lemma WeekCatchesUp(s: Subscription, now: nat, schedule: Schedule, t: Subscription)
    requires |schedule| < U32_MAX && Due(s, now) && s.periodEnd <= s.nextChargeAt
    requires t.failures == 0 && t.nextChargeAt == t.periodEnd >= s.periodEnd + WEEK
    ensures PassesLeft(t, now, schedule) < PassesLeft(s, now, schedule)
  {
    MaxAttemptsBounds(schedule);
    var m := MaxAttempts(schedule);
    assert AttemptsLeft(t, schedule) == m && AttemptsLeft(s, schedule) > 0;
    if Due(t, now) {
      var p, q := WeeksBehind(s, now), WeeksBehind(t, now);
      WeekLess(now - s.periodEnd, now - t.periodEnd, p, q);
      Scaled(p, q, m);
    } else {
      assert WeeksBehind(s, now) * m >= 0;
    }
  }

  lemma ChargeCatchesUp(s: Subscription, now: nat, schedule: Schedule, txn: string)
    requires |schedule| < U32_MAX && Due(s, now) && s.periodEnd <= s.nextChargeAt
    ensures PassesLeft(Billed(s, txn), now, schedule) < PassesLeft(s, now, schedule)
  {
    PeriodAdvanceIncreases(s.periodEnd, s.cadence);
    WeekCatchesUp(s, now, schedule, Billed(s, txn));
  }

  lemma WeekLess(a: nat, b: nat, p: nat, q: nat)
    requires b + WEEK <= a && p == a / WEEK && q == b / WEEK
    ensures q + 1 <= p
  {
  }

  lemma Scaled(p: nat, q: nat, m: nat)
    requires q + 1 <= p
    ensures q * m + m <= p * m
  {
    assert p * m == (p - q - 1) * m + (q + 1) * m;
  }

  lemma MissCatchesUp(s: Subscription, now: nat, schedule: Schedule)
    requires |schedule| < U32_MAX && Due(s, now) && s.periodEnd <= s.nextChargeAt
    ensures PassesLeft(Missed(s, now, schedule), now, schedule) < PassesLeft(s, now, schedule)
  {
    MaxAttemptsBounds(schedule);
  }

  function ChargeFor(charges: map<string, Charge>, id: string): Charge {
    if id in charges then charges[id] else Declined
  }

  function AfterPass(b: Book, now: nat, schedule: Schedule, charges: map<string, Charge>): Book {
    map id | id in b :: Ticked(b[id], now, schedule, ChargeFor(charges, id))
  }

  /** The book after a series of passes at one fixed time, whatever each charge does. */
  function AfterPasses(b: Book, now: nat, schedule: Schedule, passes: seq<map<string, Charge>>): Book
    decreases |passes|
  {
    if passes == [] then b else AfterPasses(AfterPass(b, now, schedule, passes[0]), now, schedule, passes[1..])
  }

  lemma TickCatchesUp(s: Subscription, now: nat, schedule: Schedule, c: Charge)
    requires |schedule| < U32_MAX && s.periodEnd <= s.nextChargeAt
    ensures var t := Ticked(s, now, schedule, c);
            t.periodEnd <= t.nextChargeAt
            && (Due(s, now) ==> PassesLeft(t, now, schedule) < PassesLeft(s, now, schedule))
            && (!Due(s, now) ==> t == s)
  {
    if Due(s, now) {
      if c.Charged? { ChargeCatchesUp(s, now, schedule, c.txn); }
      else { MissCatchesUp(s, now, schedule); }
    }
  }

  /** Repeating the pass at a fixed time ends with nothing due, after as many passes as the
      furthest behind subscription can still need, for any pattern of charges and failures. */
  lemma {:induction false} SchedulerCatchesUp(b: Book, now: nat, schedule: Schedule, passes: seq<map<string, Charge>>)
    requires |schedule| < U32_MAX
    requires forall id <- b :: b[id].periodEnd <= b[id].nextChargeAt && PassesLeft(b[id], now, schedule) <= |passes|
    ensures DueIds(AfterPasses(b, now, schedule, passes), now) == {}
    decreases |passes|
  {
    if passes != [] {
      var next := AfterPass(b, now, schedule, passes[0]);
      forall id | id in next
        ensures next[id].periodEnd <= next[id].nextChargeAt && PassesLeft(next[id], now, schedule) <= |passes| - 1
      {
        TickCatchesUp(b[id], now, schedule, ChargeFor(passes[0], id));
      }
      SchedulerCatchesUp(next, now, schedule, passes[1..]);
    } else {
      forall id | id in b ensures !Due(b[id], now) { assert PassesLeft(b[id], now, schedule) <= 0; }
    }
  }

  // ---- dunning -------------------------------------------------------------------

  /** The subscription after failed attempts at `times`, each made when it was due. */
  function AfterFailures(s: Subscription, schedule: Schedule, times: seq<nat>): Subscription {
    if times == [] then s
    else Missed(AfterFailures(s, schedule, times[..|times| - 1]), times[|times| - 1], schedule)
  }

  ghost predicate AttemptedWhenDue(s: Subscription, schedule: Schedule, times: seq<nat>) {
    forall i | 0 <= i < |times| :: Due(AfterFailures(s, schedule, times[..i]), times[i])
  }

  /** How a subscription stands after `k` failures in a row, the last at `at`. */
  predicate InDunning(t: Subscription, schedule: Schedule, k: nat, at: nat) {
    t.failures == k <= MaxAttempts(schedule)
    && (t.status == PastDue <==> k == MaxAttempts(schedule))
    && (0 < k <= |schedule| ==> t.nextChargeAt == at + schedule[k - 1] * HOUR)
  }

  lemma OneMoreFailure(t: Subscription, schedule: Schedule, k: nat, before: nat, at: nat)
    requires |schedule| < U32_MAX && InDunning(t, schedule, k, before) && Due(t, at)
    ensures InDunning(Missed(t, at, schedule), schedule, k + 1, at)
  {
    MaxAttemptsBounds(schedule);
  }

  function LastOf(times: seq<nat>, k: nat): nat
    requires k <= |times|
  {
    if k == 0 then 0 else times[k - 1]
  }

  lemma {:induction false} FailuresSoFar(s: Subscription, schedule: Schedule, times: seq<nat>, k: nat)
    requires s.failures == 0 && s.status in {Active, Trialing} && |schedule| < U32_MAX
    requires AttemptedWhenDue(s, schedule, times) && k <= |times|
    ensures InDunning(AfterFailures(s, schedule, times[..k]), schedule, k, LastOf(times, k))
  {
    MaxAttemptsBounds(schedule);
    if k > 0 {
      FailuresSoFar(s, schedule, times, k - 1);
      assert times[..k][..k - 1] == times[..k - 1];
      OneMoreFailure(AfterFailures(s, schedule, times[..k - 1]), schedule, k - 1, LastOf(times, k - 1), times[k - 1]);
    }
  }

  lemma NotBeforeWait(t: Subscription, schedule: Schedule, k: nat, at: nat, next: nat)
    requires InDunning(t, schedule, k, at) && 0 < k <= |schedule| && Due(t, next)
    ensures next >= at + schedule[k - 1] * HOUR
  {
  }

  lemma WaitIsKept(s: Subscription, schedule: Schedule, times: seq<nat>, i: nat)
    requires s.failures == 0 && s.status in {Active, Trialing} && |schedule| < U32_MAX
    requires AttemptedWhenDue(s, schedule, times) && i < |times| - 1 && i < |schedule|
    ensures times[i + 1] >= times[i] + schedule[i] * HOUR
  {
    FailuresSoFar(s, schedule, times, i + 1);
    NotBeforeWait(AfterFailures(s, schedule, times[..i + 1]), schedule, i + 1, times[i], times[i + 1]);
  }

  /** Failures in a row, from a clean record: with a schedule of `n` waits the subscription
      goes past due on exactly failure n + 1 (on the third when there is none), and attempt
      i + 1 never comes before the i-th wait is over. */
  lemma DunningSchedule(s: Subscription, schedule: Schedule, times: seq<nat>)
    requires s.failures == 0 && s.status in {Active, Trialing} && |schedule| < U32_MAX
    requires AttemptedWhenDue(s, schedule, times)
    ensures var limit := if schedule == [] then 3 else |schedule| + 1;
            |times| <= limit
            && (AfterFailures(s, schedule, times).status == PastDue <==> |times| == limit)
    ensures forall i | 0 <= i < |times| - 1 && i < |schedule| :: times[i + 1] >= times[i] + schedule[i] * HOUR
  {
    MaxAttemptsBounds(schedule);
    assert times[..|times|] == times;
    FailuresSoFar(s, schedule, times, |times|);
    forall i | 0 <= i < |times| - 1 && i < |schedule| ensures times[i + 1] >= times[i] + schedule[i] * HOUR {
      WaitIsKept(s, schedule, times, i);
    }
  }
}
