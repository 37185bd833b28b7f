/** Money actually charged under a mandate. A buy, a subscription, a renewal or a peer
    payment first reserves its amount in the ledger and charges afterwards, as a separate
    step that may fail or never come. The scheduler charges renewals under the same mandate
    without reserving anything. */
module Charges {
  import opened Mandate
  import opened Measures
  import opened Money
  import opened Windows
  import opened Wrappers

  /** Buys charge the total read from their transaction, peer payments the quoted or given
      amount; subscriptions and renewals price their basket twice, once to reserve and once
      to charge. */
  datatype Intent = Buy(total: int) | PeerPay(amount: int) | Recurring(items: seq<Item>)

  function PriceOf(i: Intent): int {
    match i
    case Buy(total) => total
    case PeerPay(amount) => amount
    case Recurring(items) =>
      var t := PricedTotals(items).total;
      if t.Some? then t.value else 0
  }

  /** An intent under way; `entry` is where its reservation stands in the log, if it
      reserved anything. */
  datatype Task = Task(intent: Intent, entry: Option<nat>)

  /** `charged[i]` is the amount charged against the i-th recorded spend; `scheduled` holds
      the scheduler's charges, with the ledger window they fell in. */
  datatype State = State(
    usage: Usage,
    log: seq<Entry>,
    now: int,
    open: map<nat, Task>,
    charged: map<nat, int>,
    scheduled: seq<Entry>)

  datatype Op =
    | Reserve(task: nat, intent: Intent, tenant: string, at: int)
    | Charge(task: nat)
    | GiveUp(task: nat)
    | Scheduled(items: seq<Item>, at: int)

  predicate Enabled(s: State, op: Op) {
    match op
    case Reserve(t, i, _, at) => t !in s.open && at >= s.now && PriceOf(i) <= I64_MAX
    case Charge(t) => t in s.open
    case GiveUp(t) => t in s.open
    case Scheduled(items, at) => at >= s.now && PriceOf(Recurring(items)) >= 0
  }

  function Apply(b: Backend, lim: Limits, s: State, op: Op): State
    requires Enabled(s, op)
  {
    match op
    case Reserve(t, i, tenant, at) =>
      var amount := PriceOf(i);
      var u := UsageAfter(b, s.usage, tenant, amount, at, lim);
      (match SpendVerdict(s.usage, tenant, amount, at, lim)
       case BudgetExceeded => s.(usage := u, now := at)
       case NothingToSpend => s.(usage := u, now := at, open := s.open[t := Task(i, None)])
       case Recorded =>
         State(u, s.log + [Entry(at, amount, Mandate.Rolled(s.usage, tenant, at, lim).windowStart.value)], at,
               s.open[t := Task(i, Some(|s.log|))], s.charged, s.scheduled))
    case Charge(t) =>
      var task := s.open[t];
      s.(open := s.open - {t},
         charged := if task.entry.Some? then s.charged[task.entry.value := PriceOf(task.intent)] else s.charged)
    case GiveUp(t) => s.(open := s.open - {t})
    case Scheduled(items, at) =>
      var w := if s.usage.windowStart.Some? then s.usage.windowStart.value else at;
      s.(now := at, scheduled := s.scheduled + [Entry(at, PriceOf(Recurring(items)), w)])
  }

  function Start(now: int): State { State(NO_USAGE, [], now, map[], map[], []) }

  ghost predicate IsRun(b: Backend, lim: Limits, ops: seq<Op>, ss: seq<State>) {
    |ss| == |ops| + 1 && ss[0] == Start(ss[0].now)
    && forall i | 0 <= i < |ops| :: Enabled(ss[i], ops[i]) && ss[i + 1] == Apply(b, lim, ss[i], ops[i])
  }

  /** What has been charged against spends counted in window `w`. */
  function ChargedIn(log: seq<Entry>, charged: map<nat, int>, w: int): int {
    if log == [] then 0
    else
      var n := |log| - 1;
      ChargedIn(log[..n], charged, w) + (if n in charged && log[n].window == w then charged[n] else 0)
  }

  ghost predicate Valid(s: State, lim: Limits) {
    LedgerOk(s.usage, s.log, s.now, lim)
    && (forall t <- s.open | s.open[t].entry.Some? ::
          s.open[t].entry.value < |s.log| && s.log[s.open[t].entry.value].amount == PriceOf(s.open[t].intent))
    && (forall i <- s.charged :: i < |s.log| && s.charged[i] == s.log[i].amount)
  }

  lemma StepKeepsValid(b: Backend, lim: Limits, s: State, op: Op)
    requires Sane(lim) && Valid(s, lim) && Enabled(s, op)
    ensures Valid(Apply(b, lim, s, op), lim)
  {
    if op.Scheduled? { LaterOk(s.usage, s.log, s.now, lim, op.at); }
    if op.Reserve? {
      RolledOk(s.usage, s.log, s.now, lim, op.tenant, op.at);
      LaterOk(s.usage, s.log, s.now, lim, op.at);
      if SpendVerdict(s.usage, op.tenant, PriceOf(op.intent), op.at, lim) == Recorded {
        RecordOk(Mandate.Rolled(s.usage, op.tenant, op.at, lim), s.log, op.at, lim, PriceOf(op.intent));
      }
    }
  }

  lemma {:induction false} RunKeepsValid(b: Backend, lim: Limits, ops: seq<Op>, ss: seq<State>, n: nat)
    requires Sane(lim) && IsRun(b, lim, ops, ss) && n <= |ops|
    ensures Valid(ss[n], lim)
  {
    if n == 0 {
      assert forall w :: Sum([], InWindow(w)) == 0;
    } else {
      RunKeepsValid(b, lim, ops, ss, n - 1);
      StepKeepsValid(b, lim, ss[n - 1], ops[n - 1]);
    }
  }

  lemma {:induction false} ChargedWithinReserved(log: seq<Entry>, charged: map<nat, int>, w: int)
    requires forall i <- charged | i < |log| :: charged[i] == log[i].amount
    ensures 0 <= ChargedIn(log, charged, w) <= Sum(log, InWindow(w))
  {
    if log != [] {
      ChargedWithinReserved(log[..|log| - 1], charged, w);
    }
  }

  /** At every moment of every run, what was charged against one window's reservations is
      at most what that window recorded: never more than the tally for the current window,
      nor than the budget for any, even when charges fail after reserving. */
  lemma ChargesCovered(b: Backend, lim: Limits, ops: seq<Op>, ss: seq<State>, n: nat, w: int)
    requires Sane(lim) && IsRun(b, lim, ops, ss) && n <= |ops|
    ensures 0 <= ChargedIn(ss[n].log, ss[n].charged, w) <= lim.budget
    ensures ss[n].usage.windowStart == Some(w) ==>
              ChargedIn(ss[n].log, ss[n].charged, w) <= ss[n].usage.spent <= lim.budget
  {
    RunKeepsValid(b, lim, ops, ss, n);
    ChargedWithinReserved(ss[n].log, ss[n].charged, w);
  }

  /** Every recorded spend is charged at most its own amount, and every charge that moves
      money was reserved first. */
  lemma ChargeWasReserved(b: Backend, lim: Limits, ops: seq<Op>, ss: seq<State>, n: nat, t: nat)
    requires Sane(lim) && IsRun(b, lim, ops, ss) && n < |ops| && ops[n] == Charge(t)
    requires PriceOf(ss[n].open[t].intent) > 0
    ensures var task := ss[n].open[t];
            task.entry.Some? && task.entry.value < |ss[n].log|
            && ss[n].log[task.entry.value].amount == PriceOf(task.intent)
            && ss[n + 1].charged == ss[n].charged[task.entry.value := PriceOf(task.intent)]
  {
    RunKeepsValid(b, lim, ops, ss, n);
    OpenIsReserved(b, lim, ops, ss, n, t);
  }

  lemma {:induction false} OpenIsReserved(b: Backend, lim: Limits, ops: seq<Op>, ss: seq<State>, n: nat, t: nat)
    requires IsRun(b, lim, ops, ss) && n <= |ops| && t in ss[n].open
    ensures PriceOf(ss[n].open[t].intent) > 0 ==> ss[n].open[t].entry.Some?
  {
    if t in ss[n - 1].open && ss[n - 1].open[t] == ss[n].open[t] {
      OpenIsReserved(b, lim, ops, ss, n - 1, t);
    }
  }

  // ---- what the scheduler adds ---------------------------------------------------

  /** All money charged under the mandate in window `w`. */
  function TotalIn(s: State, w: int): int { ChargedIn(s.log, s.charged, w) + Sum(s.scheduled, InWindow(w)) }

  /** So a window sees at most its tally, and the budget, on top of what the scheduler
      charged in it. */
  lemma TotalBounded(b: Backend, lim: Limits, ops: seq<Op>, ss: seq<State>, n: nat, w: int)
    requires Sane(lim) && IsRun(b, lim, ops, ss) && n <= |ops|
    ensures TotalIn(ss[n], w) <= lim.budget + Sum(ss[n].scheduled, InWindow(w))
    ensures ss[n].usage.windowStart == Some(w) ==>
              TotalIn(ss[n], w) <= ss[n].usage.spent + Sum(ss[n].scheduled, InWindow(w))
  {
    ChargesCovered(b, lim, ops, ss, n, w);
  }

  lemma Extend(b: Backend, lim: Limits, ops: seq<Op>, ss: seq<State>, op: Op)
    returns (ops': seq<Op>, ss': seq<State>)
    requires IsRun(b, lim, ops, ss) && Enabled(ss[|ops|], op)
    ensures IsRun(b, lim, ops', ss') && ops' == ops + [op] && ss' == ss + [Apply(b, lim, ss[|ops|], op)]
  {
    var t := Apply(b, lim, ss[|ops|], op);
    ops', ss' := ops + [op], ss + [t];
    forall i | 0 <= i < |ops'| ensures Enabled(ss'[i], ops'[i]) && ss'[i + 1] == Apply(b, lim, ss'[i], ops'[i]) {
      if i < |ops| { assert ss'[i] == ss[i] && ss'[i + 1] == ss[i + 1] && ops'[i] == ops[i]; }
    }
  }

  /** A subscription's first charge, reserved and made at time zero. */
  lemma FirstCharge(b: Backend, lim: Limits, items: seq<Item>) returns (ops: seq<Op>, ss: seq<State>)
    requires Sane(lim) && 0 < PriceOf(Recurring(items)) <= lim.budget
    requires lim.perTransaction.Some? ==> PriceOf(Recurring(items)) <= lim.perTransaction.value
    ensures IsRun(b, lim, ops, ss)
    ensures var s := ss[|ops|];
            s.usage.windowStart == Some(0) && s.usage.spent == PriceOf(Recurring(items)) && s.now == 0
            && s.scheduled == [] && TotalIn(s, 0) == PriceOf(Recurring(items))
  {
    var amount := PriceOf(Recurring(items));
    ops, ss := [], [Start(0)];
    ops, ss := Extend(b, lim, ops, ss, Reserve(0, Recurring(items), "t", 0));
    var reserved := ss[|ops|];
    assert reserved.log == [Entry(0, amount, 0)] && reserved.open[0] == Task(Recurring(items), Some(0));
    ops, ss := Extend(b, lim, ops, ss, Charge(0));
    var s := ss[|ops|];
    assert s.charged == map[0 := amount] && s.log[..0] == [];
    assert ChargedIn(s.log, s.charged, 0) == ChargedIn([], s.charged, 0) + amount;
  }

  /** Nothing bounds the scheduler's part: after a first charge that its budget covers, `k`
      renewals inside the same window bring the total to k + 1 times the price, whatever
      the budget is. The ledger's tally does not move. */
  lemma {:induction false} RenewalsExceedBudget(b: Backend, lim: Limits, items: seq<Item>, period: nat, k: nat)
    returns (ops: seq<Op>, ss: seq<State>)
    requires Sane(lim) && 0 < PriceOf(Recurring(items)) <= lim.budget && k * period <= lim.window
    requires lim.perTransaction.Some? ==> PriceOf(Recurring(items)) <= lim.perTransaction.value
    ensures IsRun(b, lim, ops, ss)
    ensures var s := ss[|ops|];
            s.now == k * period && s.usage.windowStart == Some(0) && s.usage.spent == PriceOf(Recurring(items))
            && TotalIn(s, 0) == (k + 1) * PriceOf(Recurring(items))
  {
    if k == 0 {
      ops, ss := FirstCharge(b, lim, items);
    } else {
      assert k * period == (k - 1) * period + period;
      ops, ss := RenewalsExceedBudget(b, lim, items, period, k - 1);
      var s, at := ss[|ops|], k * period;
      ops, ss := Extend(b, lim, ops, ss, Scheduled(items, at));
      SumAppend(s.scheduled, Entry(at, PriceOf(Recurring(items)), 0), InWindow(0));
      OneMoreTime(k, PriceOf(Recurring(items)));
    }
  }

  lemma OneMoreTime(k: nat, p: int)
    ensures k * p + p == (k + 1) * p
  {
  }

  // ---- exactly when the budget bounds the money ----------------------------------

  /** Over every run, a window in which the scheduler charges at most `most` sees no more
      money than the budget. */
  ghost predicate WithinBudget(b: Backend, lim: Limits, most: nat) {
    forall ops: seq<Op>, ss: seq<State>, n: nat, w: int |
      IsRun(b, lim, ops, ss) && n <= |ops| && Sum(ss[n].scheduled, InWindow(w)) <= most ::
      TotalIn(ss[n], w) <= Cap(lim)
  }

  const UNIT: seq<Item> := [Item("s", 1, Some(1))]

  lemma UnitPrice()
    ensures PriceOf(Recurring(UNIT)) == 1
  {
    assert UNIT[..0] == [];
    assert ExactSubtotal(UNIT) == ExactSubtotal([]) + 1;
  }

  lemma {:induction false} LaterChargeElsewhere(log: seq<Entry>, charged: map<nat, int>, i: nat, amount: int, w: int)
    requires |log| <= i
    ensures ChargedIn(log, charged[i := amount], w) == ChargedIn(log, charged, w)
  {
    if log != [] { LaterChargeElsewhere(log[..|log| - 1], charged, i, amount, w); }
  }

  lemma OneMoreCharge(log: seq<Entry>, charged: map<nat, int>, e: Entry, amount: int, w: int)
    ensures ChargedIn(log + [e], charged[|log| := amount], w)
         == ChargedIn(log, charged, w) + (if e.window == w then amount else 0)
  {
    assert (log + [e])[..|log|] == log;
    LaterChargeElsewhere(log, charged, |log|, amount, w);
  }

  /** The ledger still takes one more minor unit at time zero. */
  predicate TakesOne(u: Usage, lim: Limits) {
    u.windowStart in {None, Some(0)} && (lim.window < 0 || 0 <= u.spent < lim.budget)
  }

  lemma UnitRecorded(b: Backend, lim: Limits, u: Usage)
    requires Spendable(lim) && lim.budget <= I64_MAX && TakesOne(u, lim) && (u.windowStart.None? ==> u.spent == 0)
    ensures SpendVerdict(u, "t", 1, 0, lim) == Recorded && Mandate.Rolled(u, "t", 0, lim).windowStart == Some(0)
    ensures var v := UsageAfter(b, u, "t", 1, 0, lim);
            v.windowStart == Some(0) && (lim.window >= 0 ==> v.spent == u.spent + 1)
  {
  }

  /** `k` units paid to a peer at time zero, one after the other. */
  ghost predicate PaidUnits(s: State, lim: Limits, k: nat) {
    s.now == 0 && s.open == map[] && s.scheduled == [] && ChargedIn(s.log, s.charged, 0) == k
    && s.usage.windowStart == (if k == 0 then None else Some(0))
    && (k == 0 ==> s.usage.spent == 0) && (lim.window >= 0 ==> s.usage.spent == k)
  }

  lemma OneUnit(b: Backend, lim: Limits, ops: seq<Op>, ss: seq<State>, k: nat) returns (ops': seq<Op>, ss': seq<State>)
    requires IsRun(b, lim, ops, ss) && PaidUnits(ss[|ops|], lim, k)
    requires Spendable(lim) && lim.budget <= I64_MAX && (lim.window < 0 || k < lim.budget)
    ensures IsRun(b, lim, ops', ss') && PaidUnits(ss'[|ops'|], lim, k + 1)
  {
    var s := ss[|ops|];
    UnitRecorded(b, lim, s.usage);
    ops', ss' := Extend(b, lim, ops, ss, Reserve(0, PeerPay(1), "t", 0));
    var reserved := ss'[|ops'|];
    assert reserved.log == s.log + [Entry(0, 1, 0)] && reserved.open[0] == Task(PeerPay(1), Some(|s.log|));
    ops', ss' := Extend(b, lim, ops', ss', Charge(0));
    OneMoreCharge(s.log, s.charged, Entry(0, 1, 0), 1, 0);
  }

  lemma {:induction false} Units(b: Backend, lim: Limits, k: nat) returns (ops: seq<Op>, ss: seq<State>)
    requires Spendable(lim) && lim.budget <= I64_MAX && (lim.window < 0 || k <= lim.budget)
    ensures IsRun(b, lim, ops, ss) && PaidUnits(ss[|ops|], lim, k)
  {
    if k == 0 {
      ops, ss := [], [Start(0)];
    } else {
      ops, ss := Units(b, lim, k - 1);
      ops, ss := OneUnit(b, lim, ops, ss, k - 1);
    }
  }

  /** One more unit, charged by the scheduler. */
  lemma OneScheduled(b: Backend, lim: Limits, ops: seq<Op>, ss: seq<State>) returns (ops': seq<Op>, ss': seq<State>)
    requires IsRun(b, lim, ops, ss) && ss[|ops|].now == 0 && ss[|ops|].usage.windowStart in {None, Some(0)}
    ensures IsRun(b, lim, ops', ss')
    ensures var s, t := ss[|ops|], ss'[|ops'|];
            t == s.(scheduled := t.scheduled)
            && Sum(t.scheduled, InWindow(0)) == Sum(s.scheduled, InWindow(0)) + 1
  {
    UnitPrice();
    ops', ss' := Extend(b, lim, ops, ss, Scheduled(UNIT, 0));
    SumAppend(ss[|ops|].scheduled, Entry(0, 1, 0), InWindow(0));
  }

  /** `k` units charged by the scheduler at time zero, and nothing else. */
  ghost predicate ScheduledOnly(s: State, k: nat) {
    s == Start(0).(scheduled := s.scheduled) && Sum(s.scheduled, InWindow(0)) == k
  }

  lemma StartsEmpty(b: Backend, lim: Limits) returns (ops: seq<Op>, ss: seq<State>)
    ensures IsRun(b, lim, ops, ss) && ScheduledOnly(ss[|ops|], 0)
  {
    ops, ss := [], [Start(0)];
  }

  lemma {:induction false} ScheduledUnits(b: Backend, lim: Limits, k: nat) returns (ops: seq<Op>, ss: seq<State>)
    ensures IsRun(b, lim, ops, ss) && ScheduledOnly(ss[|ops|], k)
    decreases k
  {
    if k == 0 {
      ops, ss := StartsEmpty(b, lim);
    } else {
      var before, states := ScheduledUnits(b, lim, k - 1);
      ops, ss := NextScheduled(b, lim, before, states, k);
    }
  }

  lemma NextScheduled(b: Backend, lim: Limits, ops: seq<Op>, ss: seq<State>, k: nat)
    returns (ops': seq<Op>, ss': seq<State>)
    requires k > 0 && IsRun(b, lim, ops, ss) && ScheduledOnly(ss[|ops|], k - 1)
    ensures IsRun(b, lim, ops', ss') && ScheduledOnly(ss'[|ops'|], k)
  {
    ops', ss' := OneScheduled(b, lim, ops, ss);
  }

  /** A mandate that admits no spend never records one. */
  lemma {:induction false} NothingRecorded(b: Backend, lim: Limits, ops: seq<Op>, ss: seq<State>, n: nat)
    requires !Spendable(lim) && IsRun(b, lim, ops, ss) && n <= |ops|
    ensures ss[n].log == [] && ss[n].usage.spent == 0
  {
    if n > 0 { NothingRecorded(b, lim, ops, ss, n - 1); }
  }

  /** When the bound is claimed, it holds. */
  lemma BoundHolds(b: Backend, lim: Limits, most: nat, ops: seq<Op>, ss: seq<State>, n: nat, w: int)
    requires lim.budget <= I64_MAX && IsRun(b, lim, ops, ss) && n <= |ops|
    requires Sum(ss[n].scheduled, InWindow(w)) <= most
    requires if Spendable(lim) then lim.window >= 0 && most == 0 else most <= Cap(lim)
    ensures TotalIn(ss[n], w) <= Cap(lim)
  {
    if Spendable(lim) { TotalBounded(b, lim, ops, ss, n, w); } else { NothingRecorded(b, lim, ops, ss, n); }
  }

  /** And otherwise some run breaks it. */
  lemma BoundBroken(b: Backend, lim: Limits, most: nat) returns (ops: seq<Op>, ss: seq<State>)
    requires lim.budget <= I64_MAX
    requires !(if Spendable(lim) then lim.window >= 0 && most == 0 else most <= Cap(lim))
    ensures IsRun(b, lim, ops, ss) && Sum(ss[|ops|].scheduled, InWindow(0)) <= most
    ensures TotalIn(ss[|ops|], 0) > Cap(lim)
  {
    if !Spendable(lim) {
      ops, ss := ScheduledUnits(b, lim, Cap(lim) + 1);
    } else if lim.window < 0 {
      ops, ss := Units(b, lim, lim.budget + 1);
    } else {
      ops, ss := Units(b, lim, lim.budget);
      ops, ss := OneScheduled(b, lim, ops, ss);
    }
  }

  /** For every mandate: the budget bounds the money charged in a window, over all runs,
      exactly when the scheduler charges nothing in it and the period is not negative, or
      when the mandate admits no spend and the scheduler alone stays within the budget. */
  lemma WithinBudgetIff(b: Backend, lim: Limits, most: nat)
    requires lim.budget <= I64_MAX
    ensures WithinBudget(b, lim, most)
            <==> if Spendable(lim) then lim.window >= 0 && most == 0 else most <= Cap(lim)
  {
    if (if Spendable(lim) then lim.window >= 0 && most == 0 else most <= Cap(lim)) {
      forall ops: seq<Op>, ss: seq<State>, n: nat, w: int |
        IsRun(b, lim, ops, ss) && n <= |ops| && Sum(ss[n].scheduled, InWindow(w)) <= most
        ensures TotalIn(ss[n], w) <= Cap(lim)
      {
        BoundHolds(b, lim, most, ops, ss, n, w);
      }
    } else {
      var ops, ss := BoundBroken(b, lim, most);
      assert TotalIn(ss[|ops|], 0) > Cap(lim);
    }
  }
}
