/** The mandate ledger: a spending budget per window, checked and recorded in one step, on
    the in-memory and on the SQLite backend. */
module Mandate {
  import opened Decimals
  import opened Measures
  import opened Money
  import opened Windows
  import opened Wrappers

  datatype Usage = Usage(spent: int, windowStart: Option<int>, tenant: string)

  datatype Limits = Limits(budget: int, perTransaction: Option<int>, window: int)

  datatype Backend = Memory | Sqlite

  datatype Verdict = Recorded | NothingToSpend | BudgetExceeded

  const NO_USAGE := Usage(0, None, "")

  function Rolled(u: Usage, tenant: string, now: int, lim: Limits): Usage {
    var v := if u.windowStart.None? || now - u.windowStart.value > lim.window
             then u.(spent := 0, windowStart := Some(now)) else u;
    if v.tenant == "" then v.(tenant := tenant) else v
  }

  function Remaining(u: Usage, lim: Limits): int { SatSub(lim.budget, u.spent) }

  predicate RefusedOutright(amount: int, lim: Limits) {
    lim.budget < 0 || (lim.perTransaction.Some? && amount > lim.perTransaction.value)
  }

  function SpendVerdict(u: Usage, tenant: string, amount: int, now: int, lim: Limits): Verdict {
    if amount <= 0 then NothingToSpend
    else if RefusedOutright(amount, lim) || amount > Remaining(Rolled(u, tenant, now, lim), lim) then BudgetExceeded
    else Recorded
  }

  /** After a budget rejection the in-memory ledger keeps the window it just opened; the
      SQLite transaction rolls it back. */
  function UsageAfter(b: Backend, u: Usage, tenant: string, amount: int, now: int, lim: Limits): Usage {
    var rolled := Rolled(u, tenant, now, lim);
    match SpendVerdict(u, tenant, amount, now, lim)
    case NothingToSpend => u
    case BudgetExceeded => if b == Memory && !RefusedOutright(amount, lim) then rolled else u
    case Recorded => rolled.(spent := SatAdd(rolled.spent, amount))
  }

  class MandateLedger {
    var rows: map<string, Usage>
    const backend: Backend

    constructor (backend: Backend)
      ensures rows == map[] && this.backend == backend
    {
      rows := map[];
      this.backend := backend;
    }

    function UsageOf(jti: string): Usage
      reads this
    {
      if jti in rows then rows[jti] else NO_USAGE
    }

    method TryUsage(jti: string) returns (u: Usage)
      ensures u == UsageOf(jti)
    {
      u := NO_USAGE;
      if jti in rows { u := rows[jti]; }
    }

    method TryRecordSpendChecked(jti: string, tenant: string, amount: int, now: int, lim: Limits) returns (v: Verdict)
      modifies this
      ensures v == SpendVerdict(old(UsageOf(jti)), tenant, amount, now, lim)
      ensures UsageOf(jti) == UsageAfter(backend, old(UsageOf(jti)), tenant, amount, now, lim)
      ensures forall k | k != jti :: UsageOf(k) == old(UsageOf(k))
    {
      if amount <= 0 { return NothingToSpend; }
      if lim.budget < 0 { return BudgetExceeded; }
      if lim.perTransaction.Some? {
        if amount > lim.perTransaction.value { return BudgetExceeded; }
      }
      var entry := if jti in rows then rows[jti] else NO_USAGE;
      if entry.windowStart.None? || now - entry.windowStart.value > lim.window {
        entry := entry.(spent := 0, windowStart := Some(now));
      }
      if entry.tenant == "" { entry := entry.(tenant := tenant); }
      if backend == Memory { rows := rows[jti := entry]; }
      var remaining := SatSub(lim.budget, entry.spent);
      if amount > remaining { return BudgetExceeded; }
      entry := entry.(spent := SatAdd(entry.spent, amount));
      rows := rows[jti := entry];
      v := Recorded;
    }
  }

  /** The budget part of evaluating a mandate before the intent runs. */
  function EvaluateAdmits(u: Usage, amount: int, now: int, lim: Limits): bool {
    var elapsed := u.windowStart.Some? && now - u.windowStart.value > lim.window;
    var spent := if elapsed then 0 else u.spent;
    (lim.perTransaction.Some? ==> amount <= lim.perTransaction.value) && amount <= SatSub(lim.budget, spent)
  }

  /** The read-side check and the write-side gate agree on any row the ledger can hold. */
  lemma EvaluateAgreesWithGate(u: Usage, tenant: string, amount: int, now: int, lim: Limits)
    requires amount > 0 && (lim.budget >= 0 || u.spent >= 0) && (u.windowStart.None? ==> u.spent == 0)
    ensures EvaluateAdmits(u, amount, now, lim) <==> SpendVerdict(u, tenant, amount, now, lim) == Recorded
  {
  }

  /** What is recorded, in plain sums: a positive amount within the cap that fits the budget
      together with what the window still open has spent. Evaluation admits by the same sum. */
  lemma SpendFits(u: Usage, tenant: string, amount: int, now: int, lim: Limits)
    requires IsI64(lim.budget) && 0 <= u.spent <= I64_MAX
    ensures var open := u.windowStart.Some? && now - u.windowStart.value <= lim.window;
            var capped := lim.perTransaction.Some? ==> amount <= lim.perTransaction.value;
            (SpendVerdict(u, tenant, amount, now, lim) == NothingToSpend <==> amount <= 0)
            && (SpendVerdict(u, tenant, amount, now, lim) == Recorded <==>
                  amount > 0 && capped && (if open then u.spent else 0) + amount <= lim.budget)
            && (amount >= 0 ==>
                  (EvaluateAdmits(u, amount, now, lim) <==>
                     capped && (if open || u.windowStart.None? then u.spent else 0) + amount <= lim.budget))
  {
  }

  /** And the row that leaves: the tally grows by the amount, from zero in a window opened now;
      the first tenant stays; a refusal leaves the row alone, but for the window and tenant
      that the in-memory ledger keeps unless the amount was refused outright. */
  lemma RowAfter(b: Backend, u: Usage, tenant: string, amount: int, now: int, lim: Limits)
    requires 0 <= u.spent && lim.budget <= I64_MAX
    ensures var open := u.windowStart.Some? && now - u.windowStart.value <= lim.window;
            var spent := if open then u.spent else 0;
            var start := if open then u.windowStart else Some(now);
            var owner := if u.tenant == "" then tenant else u.tenant;
            var outright := lim.budget < 0 || (lim.perTransaction.Some? && amount > lim.perTransaction.value);
            UsageAfter(b, u, tenant, amount, now, lim)
              == match SpendVerdict(u, tenant, amount, now, lim)
                 case NothingToSpend => u
                 case Recorded => Usage(spent + amount, start, owner)
                 case BudgetExceeded => if b == Memory && !outright then Usage(spent, start, owner) else u
  {
  }

  // ---- over runs -----------------------------------------------------------------

  /** A spend attempted against one mandate. */
  datatype Attempt = Attempt(tenant: string, amount: int, at: int)

  ghost predicate Ordered(run: seq<Attempt>) {
    (forall i, j | 0 <= i < j < |run| :: run[i].at <= run[j].at)
    && (forall i | 0 <= i < |run| :: run[i].amount <= I64_MAX)
  }

  /** The row after a run, and the spends that were recorded with the window each was
      counted in. */
  function Ledger(b: Backend, lim: Limits, run: seq<Attempt>): (Usage, seq<Entry>) {
    if run == [] then (NO_USAGE, [])
    else
      var (u, log) := Ledger(b, lim, run[..|run| - 1]);
      var a := run[|run| - 1];
      (UsageAfter(b, u, a.tenant, a.amount, a.at, lim),
       if SpendVerdict(u, a.tenant, a.amount, a.at, lim) == Recorded
       then log + [Entry(a.at, a.amount, Rolled(u, a.tenant, a.at, lim).windowStart.value)] else log)
  }

  ghost predicate EntryOk(e: Entry, u: Usage, last: int, lim: Limits) {
    u.windowStart.Some? && e.window <= e.at <= last && e.window <= u.windowStart.value
    && e.at - e.window <= lim.window
    && (e.window < u.windowStart.value ==>
          u.windowStart.value > e.window + lim.window && u.windowStart.value >= e.at)
  }

  ghost predicate Spaced(log: seq<Entry>, lim: Limits) {
    forall x, y | x in log && y in log && x.window < y.window ::
      y.window > x.window + lim.window && y.window >= x.at
  }

  ghost predicate LedgerOk(u: Usage, log: seq<Entry>, last: int, lim: Limits) {
    0 <= u.spent <= lim.budget
    && (u.windowStart.None? ==> u.spent == 0)
    && (u.windowStart.Some? ==> u.windowStart.value <= last && Sum(log, InWindow(u.windowStart.value)) == u.spent)
    && (forall e <- log :: EntryOk(e, u, last, lim))
    && Spaced(log, lim) && CappedPerWindow(log, lim.budget)
  }

  predicate Sane(lim: Limits) { 0 <= lim.budget <= I64_MAX && lim.window >= 0 }

  lemma RolledOk(u: Usage, log: seq<Entry>, last: int, lim: Limits, tenant: string, now: int)
    requires Sane(lim) && LedgerOk(u, log, last, lim) && last <= now
    ensures LedgerOk(Rolled(u, tenant, now, lim), log, now, lim)
    ensures var r := Rolled(u, tenant, now, lim); r.windowStart.Some? && now - r.windowStart.value <= lim.window
  {
    var r := Rolled(u, tenant, now, lim);
    if u.windowStart.None? || now - u.windowStart.value > lim.window {
      forall e | e in log ensures e.window < now && EntryOk(e, r, now, lim) {
        assert EntryOk(e, u, last, lim);
      }
      SumOfNone(log, InWindow(now));
    } else {
      forall e | e in log ensures EntryOk(e, r, now, lim) {
        assert EntryOk(e, u, last, lim);
      }
    }
  }

  lemma RecordOk(r: Usage, log: seq<Entry>, now: int, lim: Limits, amount: int)
    requires Sane(lim) && LedgerOk(r, log, now, lim) && 0 < amount <= I64_MAX
    requires r.windowStart.Some? && now - r.windowStart.value <= lim.window && amount <= Remaining(r, lim)
    ensures var u, more := r.(spent := SatAdd(r.spent, amount)), log + [Entry(now, amount, r.windowStart.value)];
            u.spent == r.spent + amount && LedgerOk(u, more, now, lim)
  {
    var w := r.windowStart.value;
    var e, u := Entry(now, amount, w), r.(spent := SatAdd(r.spent, amount));
    var more := log + [e];
    forall v ensures Sum(more, InWindow(v)) == Sum(log, InWindow(v)) + (if v == w then amount else 0) {
      SumAppend(log, e, InWindow(v));
    }
    forall x | x in more ensures EntryOk(x, u, now, lim) {
      if x in log { assert EntryOk(x, r, now, lim); }
    }
    forall x, y | x in more && y in more && x.window < y.window
      ensures y.window > x.window + lim.window && y.window >= x.at
    {
      if x in log { assert EntryOk(x, r, now, lim); }
      if y in log { assert EntryOk(y, r, now, lim); }
    }
  }

  function LastTime(run: seq<Attempt>): int { if run == [] then 0 else run[|run| - 1].at }

  lemma {:induction false} RunOk(b: Backend, lim: Limits, run: seq<Attempt>)
    requires Sane(lim) && Ordered(run)
    ensures var (u, log) := Ledger(b, lim, run);
            LedgerOk(u, log, LastTime(run), lim) && (run == [] ==> log == [] && u == NO_USAGE)
  {
    if run == [] {
      assert forall w :: Sum([], InWindow(w)) == 0;
    } else {
      var before, a := run[..|run| - 1], run[|run| - 1];
      RunOk(b, lim, before);
      var (u, log) := Ledger(b, lim, before);
      var last := if before == [] then a.at else LastTime(before);
      assert LedgerOk(u, log, last, lim);
      RolledOk(u, log, last, lim, a.tenant, a.at);
      LaterOk(u, log, last, lim, a.at);
      if SpendVerdict(u, a.tenant, a.amount, a.at, lim) == Recorded {
        RecordOk(Rolled(u, a.tenant, a.at, lim), log, a.at, lim, a.amount);
      }
    }
  }

  lemma LaterOk(u: Usage, log: seq<Entry>, last: int, lim: Limits, now: int)
    requires LedgerOk(u, log, last, lim) && last <= now
    ensures LedgerOk(u, log, now, lim)
  {
    forall e | e in log ensures EntryOk(e, u, now, lim) {
      assert EntryOk(e, u, last, lim);
    }
  }

  lemma LedgerIsWellSpaced(u: Usage, log: seq<Entry>, last: int, lim: Limits)
    requires LedgerOk(u, log, last, lim)
    ensures WellSpaced(log, lim.window)
  {
    forall x, y, z | x in log && y in log && z in log && x.window < y.window < z.window
      ensures z.at > x.at + lim.window
    {
      assert EntryOk(z, u, last, lim);
    }
  }

  /** On either backend, whatever is attempted: the tally stays within the budget and is
      the exact sum of what its window recorded, no window records more than the budget,
      and no interval of one window length sees more than twice the budget. */
  lemma BudgetHolds(b: Backend, lim: Limits, run: seq<Attempt>, from: int)
    requires Sane(lim) && Ordered(run)
    ensures var (u, log) := Ledger(b, lim, run);
            0 <= u.spent <= lim.budget
            && (u.windowStart.Some? ==> u.spent == Sum(log, InWindow(u.windowStart.value)))
            && CappedPerWindow(log, lim.budget)
            && Sum(log, During(from, from + lim.window)) <= 2 * lim.budget
  {
    RunOk(b, lim, run);
    var (u, log) := Ledger(b, lim, run);
    LedgerIsWellSpaced(u, log, LastTime(run), lim);
    TwoWindowBound(log, lim.window, lim.budget, from);
  }

  /** Nothing that fits is refused: after any run, a positive amount within the cap is refused
      exactly when it exceeds the budget together with what the open window has recorded. */
  lemma RefusedOnlyOverBudget(b: Backend, lim: Limits, run: seq<Attempt>, a: Attempt)
    requires Sane(lim) && Ordered(run) && a.amount > 0
    requires lim.perTransaction.Some? ==> a.amount <= lim.perTransaction.value
    ensures var (u, log) := Ledger(b, lim, run);
            var open := u.windowStart.Some? && a.at - u.windowStart.value <= lim.window;
            SpendVerdict(u, a.tenant, a.amount, a.at, lim) == BudgetExceeded
            <==> (if open then Sum(log, InWindow(u.windowStart.value)) else 0) + a.amount > lim.budget
  {
    BudgetHolds(b, lim, run, 0);
    SpendFits(Ledger(b, lim, run).0, a.tenant, a.amount, a.at, lim);
  }

  lemma LedgerStep(b: Backend, lim: Limits, run: seq<Attempt>, a: Attempt)
    ensures var (u, log) := Ledger(b, lim, run);
            Ledger(b, lim, run + [a]) ==
              (UsageAfter(b, u, a.tenant, a.amount, a.at, lim),
               if SpendVerdict(u, a.tenant, a.amount, a.at, lim) == Recorded
               then log + [Entry(a.at, a.amount, Rolled(u, a.tenant, a.at, lim).windowStart.value)] else log)
  {
    assert (run + [a])[..|run|] == run;
  }

  /** Twice the budget is reached: a rejected spend opens the in-memory window early, the
      whole budget goes at its end, and again as the next window opens. */
  lemma TwiceTheBudget(budget: int, window: int) returns (run: seq<Attempt>)
    requires 0 < budget < I64_MAX && window > 0
    ensures Ordered(run)
    ensures Sum(Ledger(Memory, Limits(budget, None, window), run).1, During(window, 2 * window)) == 2 * budget
  {
    var lim := Limits(budget, None, window);
    var a0, a1, a2 := Attempt("t", budget + 1, 0), Attempt("t", budget, window), Attempt("t", budget, window + 1);
    var e1, e2, p := Entry(window, budget, 0), Entry(window + 1, budget, window + 1), During(window, 2 * window);
    TwiceSpent(lim);
    assert [] + [a0] == [a0] && [] + [e1] == [e1];
    LedgerGrows(Memory, lim, [], a0, NO_USAGE, []);
    LedgerGrows(Memory, lim, [a0], a1, Usage(0, Some(0), "t"), []);
    LedgerGrows(Memory, lim, [a0] + [a1], a2, Usage(budget, Some(0), "t"), [e1]);
    run := [a0] + [a1] + [a2];
    SumAppend([], e1, p);
    SumAppend([e1], e2, p);
  }

  lemma LedgerGrows(b: Backend, lim: Limits, run: seq<Attempt>, a: Attempt, u: Usage, log: seq<Entry>)
    requires Ledger(b, lim, run) == (u, log)
    ensures Ledger(b, lim, run + [a]) ==
              (UsageAfter(b, u, a.tenant, a.amount, a.at, lim),
               if SpendVerdict(u, a.tenant, a.amount, a.at, lim) == Recorded
               then log + [Entry(a.at, a.amount, Rolled(u, a.tenant, a.at, lim).windowStart.value)] else log)
  {
    LedgerStep(b, lim, run, a);
  }

  /** The three spends one by one: refused but leaving a window open, recorded at its end,
      recorded in the next. */
  lemma TwiceSpent(lim: Limits)
    requires 0 < lim.budget < I64_MAX && lim.window > 0 && lim.perTransaction.None?
    ensures var u1, u2 := Usage(0, Some(0), "t"), Usage(lim.budget, Some(0), "t");
            SpendVerdict(NO_USAGE, "t", lim.budget + 1, 0, lim) == BudgetExceeded
            && UsageAfter(Memory, NO_USAGE, "t", lim.budget + 1, 0, lim) == u1
            && SpendVerdict(u1, "t", lim.budget, lim.window, lim) == Recorded
            && Rolled(u1, "t", lim.window, lim).windowStart == Some(0)
            && UsageAfter(Memory, u1, "t", lim.budget, lim.window, lim) == u2
            && SpendVerdict(u2, "t", lim.budget, lim.window + 1, lim) == Recorded
            && Rolled(u2, "t", lim.window + 1, lim).windowStart == Some(lim.window + 1)
  {
  }

  /** Whether any spend can be recorded at all. */
  predicate Spendable(lim: Limits) {
    lim.budget > 0 && (lim.perTransaction.Some? ==> lim.perTransaction.value > 0)
  }

  const ONE: Attempt := Attempt("t", 1, 0)

  /** `n` spends of one minor unit, all at time zero. */
  function Ones(n: nat): (run: seq<Attempt>)
    ensures |run| == n && forall i | 0 <= i < n :: run[i] == ONE
  {
    if n == 0 then [] else Ones(n - 1) + [ONE]
  }

  /** Under a negative period a spend always finds a fresh window. */
  lemma OneIsRecorded(b: Backend, lim: Limits, u: Usage)
    requires Spendable(lim) && lim.budget <= I64_MAX && lim.window < 0
    requires u.windowStart in {None, Some(0)}
    ensures SpendVerdict(u, "t", 1, 0, lim) == Recorded
    ensures Rolled(u, "t", 0, lim).windowStart == Some(0) == UsageAfter(b, u, "t", 1, 0, lim).windowStart
  {
  }

  lemma LedgerOne(b: Backend, lim: Limits, run: seq<Attempt>)
    requires Spendable(lim) && lim.budget <= I64_MAX && lim.window < 0
    requires Ledger(b, lim, run).0.windowStart in {None, Some(0)}
    ensures Ledger(b, lim, run + [ONE]).0.windowStart == Some(0)
    ensures Ledger(b, lim, run + [ONE]).1 == Ledger(b, lim, run).1 + [Entry(0, 1, 0)]
  {
    OneIsRecorded(b, lim, Ledger(b, lim, run).0);
    LedgerStep(b, lim, run, ONE);
  }

  /** A negative period rolls the window over on every spend, so any number of spends is
      accepted into one and the same window. */
  lemma {:induction false} NegativePeriodUnbounded(b: Backend, lim: Limits, n: nat)
    requires Spendable(lim) && lim.budget <= I64_MAX && lim.window < 0
    ensures Sum(Ledger(b, lim, Ones(n)).1, InWindow(0)) == n
    ensures Ledger(b, lim, Ones(n)).0.windowStart == if n == 0 then None else Some(0)
  {
    if n > 0 {
      NegativePeriodUnbounded(b, lim, n - 1);
      LedgerOne(b, lim, Ones(n - 1));
      SumAppend(Ledger(b, lim, Ones(n - 1)).1, Entry(0, 1, 0), InWindow(0));
    }
  }

  function Cap(lim: Limits): nat { if lim.budget < 0 then 0 else lim.budget }

  lemma WindowsCapped(b: Backend, lim: Limits, run: seq<Attempt>)
    requires lim.budget <= I64_MAX && Ordered(run) && (lim.window >= 0 || !Spendable(lim))
    ensures CappedPerWindow(Ledger(b, lim, run).1, Cap(lim))
  {
    if Spendable(lim) {
      BudgetHolds(b, lim, run, 0);
    } else {
      NothingSpendable(b, lim, run);
    }
  }

  lemma OverspentRun(b: Backend, lim: Limits) returns (run: seq<Attempt>)
    requires lim.budget <= I64_MAX && Spendable(lim) && lim.window < 0
    ensures Ordered(run) && !CappedPerWindow(Ledger(b, lim, run).1, Cap(lim))
  {
    run := Ones(lim.budget + 1);
    NegativePeriodUnbounded(b, lim, lim.budget + 1);
    var log := Ledger(b, lim, run).1;
    assert Sum(log, InWindow(0)) > Cap(lim);
  }

  /** For every mandate: no window ever records more than the budget, over all runs, exactly
      when the period is not negative or nothing can be spent anyway. */
  lemma BudgetBoundIff(b: Backend, lim: Limits)
    requires lim.budget <= I64_MAX
    ensures (forall run | Ordered(run) :: CappedPerWindow(Ledger(b, lim, run).1, Cap(lim)))
            <==> lim.window >= 0 || !Spendable(lim)
  {
    if lim.window >= 0 || !Spendable(lim) {
      forall run | Ordered(run) ensures CappedPerWindow(Ledger(b, lim, run).1, Cap(lim)) {
        WindowsCapped(b, lim, run);
      }
    } else {
      var run := OverspentRun(b, lim);
    }
  }

  lemma {:induction false} NothingSpendable(b: Backend, lim: Limits, run: seq<Attempt>)
    requires !Spendable(lim) && Ordered(run)
    ensures Ledger(b, lim, run).0.spent == 0 && Ledger(b, lim, run).1 == []
    ensures CappedPerWindow(Ledger(b, lim, run).1, 0)
  {
    if run != [] { NothingSpendable(b, lim, run[..|run| - 1]); }
    assert forall w :: Sum([], InWindow(w)) == 0;
  }

  // ---- the period ----------------------------------------------------------------

  function ParseInt(s: string): Option<int> {
    if s != "" && s[0] == '-' then
      (if |s| == 1 then None else match Value(s[1..]) case None => None case Some(v) => Some(-(v as int)))
    else
      var digits := if s != "" && s[0] == '+' then s[1..] else s;
      if digits == "" then None else match Value(digits) case None => None case Some(v) => Some(v as int)
  }

  function Scale(n: Option<int>, unit: int): Option<int> {
    match n case None => None case Some(v) => Some(v * unit)
  }

  /** The subset of ISO 8601 durations a mandate's budget may name. */
  function ParsePeriod(s: string): Option<int> {
    if s == "" || s[0] != 'P' then None
    else
      var inner := s[1..];
      if inner == "" then None
      else
        var last, body := inner[|inner| - 1], inner[..|inner| - 1];
        if inner[0] == 'T' then
          (if |inner| > 1 && last == 'H' then Scale(ParseInt(inner[1..|inner| - 1]), HOUR) else None)
        else if last == 'D' then Scale(ParseInt(body), 24 * HOUR)
        else if last == 'W' then Scale(ParseInt(body), 7 * 24 * HOUR)
        else if last == 'M' then Scale(ParseInt(body), 30 * 24 * HOUR)
        else None
  }

  lemma DecimalParses(n: nat)
    ensures ParseInt(Decimal(n)) == Some(n)
  {
    ValueOfDecimal(n);
  }

  /** Hours, days, weeks and (30-day) months are read as written. */
  lemma PeriodRoundTrip(n: nat, unit: char)
    requires unit in {'D', 'W', 'M'}
    ensures ParsePeriod("P" + (Decimal(n) + [unit]))
         == Some(n * ((if unit == 'D' then 24 else if unit == 'W' then 168 else 720) * HOUR))
  {
    var d := Decimal(n);
    DecimalParses(n);
    var inner := d + [unit];
    assert ("P" + inner)[1..] == inner && inner[..|inner| - 1] == d;
  }

  lemma HoursRoundTrip(n: nat)
    ensures ParsePeriod("P" + ("T" + Decimal(n) + "H")) == Some(n * HOUR)
  {
    var d := Decimal(n);
    DecimalParses(n);
    var inner := "T" + d + "H";
    assert ("P" + inner)[1..] == inner && inner[1..|inner| - 1] == d;
  }

  /** The parser does accept a sign, so `P-1D` is such a negative period. */
  lemma NegativePeriodParses()
    ensures ParsePeriod("P-1D") == Some(-24 * HOUR)
  {
    assert "P-1D"[1..] == "-1D" && "-1D"[..2] == "-1" && "-1"[1..] == "1";
    assert "1"[..0] == "";
    assert Value("1") == Some(1);
  }
}
