/** Recurring billing: enrolment with or without a trial, the scheduler's passes with
    their dunning schedule, and the renew, pause and cancel requests. */
module Subscriptions {
  import opened Calendar
  import opened Measures
  import opened Wrappers

  const MAX_RENEWAL_FAILURES: nat := 3
  const MAX_TRIAL_DAYS: nat := 366

  datatype Status = Trialing | Active | Paused | PastDue | Canceled

  datatype Subscription = Subscription(
    status: Status,
    cadence: Cadence,
    periodStart: nat,
    periodEnd: nat,
    nextChargeAt: nat,
    chargesCompleted: nat,
    failures: nat,
    trialEnd: Option<nat>,
    lastTransaction: Option<string>,
    hasPayment: bool)

  /** What the payment side answered: the transaction of a charge, or a failure. */
  datatype Charge = Charged(txn: string) | Declined

  /** Hours to wait after each consecutive failure. */
  type Schedule = seq<nat>

  type Book = map<string, Subscription>

  function MaxAttempts(schedule: Schedule): nat {
    if schedule == [] then MAX_RENEWAL_FAILURES else Succ32(|schedule| % 0x1_0000_0000)
  }

  function NextAttempt(schedule: Schedule, failures: nat, now: nat): Option<nat> {
    if 1 <= failures <= |schedule| then Some(now + schedule[failures - 1] * HOUR) else None
  }

  predicate Due(s: Subscription, now: nat) {
    s.status in {Active, Trialing} && s.nextChargeAt <= now && s.hasPayment
  }

  // ---- what one operation does to a subscription ---------------------------------

  function Enrolled(cadence: Cadence, trialDays: nat, now: nat, txn: string): Subscription {
    if trialDays > 0 then
      var end := now + DayStart(trialDays);
      Subscription(Trialing, cadence, now, end, end, 0, 0, Some(end), None, true)
    else
      var end := PeriodAdvance(now, cadence);
      Subscription(Active, cadence, now, end, end, 1, 0, None, Some(txn), true)
  }

  /** The period after the one that ends, whenever the charge came. */
  function Advanced(s: Subscription, txn: string): Subscription {
    var end := PeriodAdvance(s.periodEnd, s.cadence);
    s.(periodStart := s.periodEnd, periodEnd := end, nextChargeAt := end,
       chargesCompleted := Succ32(s.chargesCompleted), lastTransaction := Some(txn), failures := 0)
  }

  function Billed(s: Subscription, txn: string): Subscription {
    var a := Advanced(s, txn);
    if s.status == Trialing then a.(status := Active, trialEnd := None) else a
  }

  function Missed(s: Subscription, now: nat, schedule: Schedule): Subscription {
    var n := Succ32(s.failures);
    var f := s.(failures := n);
    if n >= MaxAttempts(schedule) then f.(status := PastDue)
    else match NextAttempt(schedule, n, now)
      case Some(at) => f.(nextChargeAt := at)
      case None => f
  }

  function Attempted(s: Subscription, now: nat, schedule: Schedule, c: Charge): Subscription {
    if c.Charged? then Billed(s, c.txn) else Missed(s, now, schedule)
  }

  function Ticked(s: Subscription, now: nat, schedule: Schedule, c: Charge): Subscription {
    if Due(s, now) then Attempted(s, now, schedule, c) else s
  }

  function Renewed(s: Subscription, txn: string): Subscription {
    Advanced(s, txn).(status := Active, trialEnd := None, hasPayment := true)
  }

  predicate Renewable(s: Subscription) { s.status !in {Paused, Canceled} }

  // ---- the service ---------------------------------------------------------------

  datatype Error = InvalidTrial | ChargeFailed | PreconditionFailed | NotFound

  datatype Result = Done(sub: Subscription) | Failed(error: Error)

  datatype TickReport = TickReport(scanned: nat, due: nat, renewed: nat, failed: nat, pastDue: nat)

  class SubscriptionService {
    var subs: Book

    constructor ()
      ensures subs == map[]
    {
      subs := map[];
    }

    /** Enrols under a fresh id. A trial moves no money and charges first when it ends. */
    method Subscribe(id: string, cadence: Cadence, trialDays: Option<nat>, now: nat, charge: Charge) returns (r: Result)
      requires id !in subs
      modifies this
      ensures var days := if trialDays.Some? then trialDays.value else 0;
              if days > MAX_TRIAL_DAYS then r == Failed(InvalidTrial) && subs == old(subs)
              else if days == 0 && charge.Declined? then r == Failed(ChargeFailed) && subs == old(subs)
              else subs == old(subs)[id := Enrolled(cadence, days, now, if charge.Charged? then charge.txn else "")]
                   && r == Done(subs[id])
      ensures r.Done? ==>
                id in subs && r.sub.periodStart == now && r.sub.nextChargeAt == r.sub.periodEnd
                && r.sub.cadence == cadence && r.sub.failures == 0 && r.sub.hasPayment
                && (if trialDays.Some? && trialDays.value > 0
                    then r.sub.status == Trialing && r.sub.periodEnd == now + trialDays.value * 86_400 * SECOND
                         && r.sub.trialEnd == Some(r.sub.periodEnd) && r.sub.chargesCompleted == 0
                         && r.sub.lastTransaction == None
                    else charge.Charged? && r.sub.status == Active && r.sub.periodEnd == PeriodAdvance(now, cadence)
                         && r.sub.trialEnd == None && r.sub.chargesCompleted == 1
                         && r.sub.lastTransaction == Some(charge.txn))
    {
      if trialDays.Some? && trialDays.value > 0 {
        if trialDays.value > MAX_TRIAL_DAYS { return Failed(InvalidTrial); }
        var trialEnd := now + DayStart(trialDays.value);
        var trial := Subscription(Trialing, cadence, now, trialEnd, trialEnd, 0, 0, Some(trialEnd), None, true);
        subs := subs[id := trial];
        return Done(trial);
      }
      var next := PeriodAdvance(now, cadence);
      if charge.Declined? { return Failed(ChargeFailed); }
      var sub := Subscription(Active, cadence, now, next, next, 1, 0, None, Some(charge.txn), true);
      subs := subs[id := sub];
      r := Done(sub);
    }

    method Renew(id: string, charge: Charge) returns (r: Result)
      modifies this
      ensures if id !in old(subs) then r == Failed(NotFound) && subs == old(subs)
              else if !Renewable(old(subs)[id]) then r == Failed(PreconditionFailed) && subs == old(subs)
              else if charge.Declined? then r == Failed(ChargeFailed) && subs == old(subs)
              else subs == old(subs)[id := Renewed(old(subs)[id], charge.txn)] && r == Done(subs[id])
      ensures r.Done? <==> id in old(subs) && old(subs)[id].status !in {Paused, Canceled} && charge.Charged?
      ensures r.Done? ==>
                var was := old(subs)[id];
                r.sub == Subscription(Active, was.cadence, was.periodEnd, PeriodAdvance(was.periodEnd, was.cadence),
                                      PeriodAdvance(was.periodEnd, was.cadence), Min(was.chargesCompleted + 1, U32_MAX),
                                      0, None, Some(charge.txn), true)
    {
      if id !in subs { return Failed(NotFound); }
      var s := subs[id];
      match s.status {
        case Canceled => return Failed(PreconditionFailed);
        case Paused => return Failed(PreconditionFailed);
        case _ =>
      }
      if charge.Declined? { return Failed(ChargeFailed); }
      var newStart := s.periodEnd;
      var newEnd := PeriodAdvance(newStart, s.cadence);
      s := s.(periodStart := newStart, periodEnd := newEnd, nextChargeAt := newEnd);
      s := s.(chargesCompleted := Succ32(s.chargesCompleted), lastTransaction := Some(charge.txn));
      s := s.(status := Active, trialEnd := None, failures := 0, hasPayment := true);
      subs := subs[id := s];
      r := Done(s);
    }

    method Pause(id: string) returns (r: Result)
      modifies this
      ensures if id !in old(subs) then r == Failed(NotFound) && subs == old(subs)
              else if old(subs)[id].status == Canceled then r == Failed(PreconditionFailed) && subs == old(subs)
              else subs == old(subs)[id := old(subs)[id].(status := Paused)] && r == Done(subs[id])
    {
      if id !in subs { return Failed(NotFound); }
      if subs[id].status == Canceled { return Failed(PreconditionFailed); }
      subs := subs[id := subs[id].(status := Paused)];
      r := Done(subs[id]);
    }

    method Cancel(id: string) returns (r: Result)
      modifies this
      ensures if id !in old(subs) then r == Failed(NotFound) && subs == old(subs)
              else if old(subs)[id].status == Canceled then r == Failed(PreconditionFailed) && subs == old(subs)
              else subs == old(subs)[id := old(subs)[id].(status := Canceled)] && r == Done(subs[id])
    {
      if id !in subs { return Failed(NotFound); }
      if subs[id].status == Canceled { return Failed(PreconditionFailed); }
      subs := subs[id := subs[id].(status := Canceled)];
      r := Done(subs[id]);
    }

    /** One subscription's turn in a pass. */
    method TickOne(id: string, now: nat, schedule: Schedule, charge: Charge, before: TickReport)
      returns (report: TickReport)
      requires id in subs
      modifies this
      ensures subs == old(subs)[id := Attempted(old(subs)[id], now, schedule, charge)]
      ensures report == Counted(before, charge, subs[id])
      ensures charge.Charged? ==>
                var was := old(subs)[id];
                subs[id] == Subscription(if was.status == Trialing then Active else was.status, was.cadence,
                                         was.periodEnd, PeriodAdvance(was.periodEnd, was.cadence),
                                         PeriodAdvance(was.periodEnd, was.cadence),
                                         Min(was.chargesCompleted + 1, U32_MAX), 0,
                                         if was.status == Trialing then None else was.trialEnd,
                                         Some(charge.txn), was.hasPayment)
                && report == before.(renewed := before.renewed + 1)
      ensures charge.Declined? ==>
                var was, n := old(subs)[id], Min(old(subs)[id].failures + 1, U32_MAX);
                var last := n >= MaxAttempts(schedule);
                subs[id] == was.(failures := n, status := if last then PastDue else was.status,
                                 nextChargeAt := if !last && 1 <= n <= |schedule| then now + schedule[n - 1] * HOUR
                                                 else was.nextChargeAt)
                && report.failed == before.failed + 1 && report.renewed == before.renewed
                && report.pastDue == before.pastDue + (if subs[id].status == PastDue then 1 else 0)
    {
      var s := subs[id];
      match charge {
        case Charged(txn) =>
          var newStart := s.periodEnd;
          var newEnd := PeriodAdvance(newStart, s.cadence);
          if s.status == Trialing { s := s.(status := Active, trialEnd := None); }
          s := s.(periodStart := newStart, periodEnd := newEnd, nextChargeAt := newEnd,
                  chargesCompleted := Succ32(s.chargesCompleted), lastTransaction := Some(txn), failures := 0);
          subs := subs[id := s];
          report := before.(renewed := before.renewed + 1);
        case Declined =>
          var count := Succ32(s.failures);
          var nextAttempt := NextAttempt(schedule, count, now);
          s := s.(failures := count);
          if s.failures >= MaxAttempts(schedule) {
            s := s.(status := PastDue);
          } else if nextAttempt.Some? {
            s := s.(nextChargeAt := nextAttempt.value);
          }
          subs := subs[id := s];
          report := before.(failed := before.failed + 1);
          if s.status == PastDue { report := report.(pastDue := report.pastDue + 1); }
      }
    }

    /** A pass attempts every due subscription once and touches no other. */
    method TickSubscriptions(now: nat, schedule: Schedule, charges: map<string, Charge>) returns (report: TickReport)
      requires forall id <- subs :: id in charges
      modifies this
      ensures subs == map id | id in old(subs) :: Ticked(old(subs)[id], now, schedule, charges[id])
      ensures forall id <- subs ::
                var s := old(subs)[id];
                subs[id] == if s.status in {Active, Trialing} && s.nextChargeAt <= now && s.hasPayment
                            then Attempted(s, now, schedule, charges[id]) else s
      ensures report.scanned == |old(subs)| && report.due == |DueIds(old(subs), now)|
      ensures report.due == report.renewed + report.failed && report.pastDue <= report.failed
      ensures report.renewed == |ChargedAmong(DueIds(old(subs), now), charges)|
      ensures report.pastDue == |LapsedAmong(old(subs), DueIds(old(subs), now), now, schedule, charges)|
    {
      hide Attempted, Counted, Due, Ticked, ChargedAmong, LapsedAmong, Attempting, Reported;
      ghost var was := subs;
      var due := DueIds(subs, now);
      report := TickReport(|subs|, |due|, 0, 0, 0);
      ghost var all := due;
      PassStarts(was, due, now, schedule, charges);
      while due != {}
        invariant Attempting(was, subs, all, due, now, schedule, charges)
        invariant Reported(report, was, all - due, now, schedule, charges)
        invariant report.scanned == |was| && report.due == |all|
        decreases due
      {
        var id :| id in due;
        AttemptStep(was, subs, all, due, id, now, schedule, charges);
        ReportStep(report, was, all - due, id, now, schedule, charges);
        assert all - (due - {id}) == (all - due) + {id};
        report := TickOne(id, now, schedule, charges[id], report);
        due := due - {id};
      }
      assert all - due == all;
      AllAttempted(report, was, subs, now, schedule, charges);
    }
  }

  /** Of the due subscriptions `all`, those in `due` are still to be attempted. */
  ghost predicate Attempting(was: Book, subs: Book, all: set<string>, due: set<string>, now: nat,
                             schedule: Schedule, charges: map<string, Charge>)
  {
    due <= all <= was.Keys == subs.Keys <= charges.Keys
    && (forall id <- was | id in due || id !in all :: subs[id] == was[id])
    && (forall id <- all - due :: subs[id] == Attempted(was[id], now, schedule, charges[id]))
  }

  lemma AttemptStep(was: Book, subs: Book, all: set<string>, due: set<string>, id: string, now: nat,
                    schedule: Schedule, charges: map<string, Charge>)
    requires Attempting(was, subs, all, due, now, schedule, charges) && id in due
    ensures id in was && id in charges && id in subs && subs[id] == was[id]
    ensures var next := subs[id := Attempted(was[id], now, schedule, charges[id])];
            Attempting(was, next, all, due - {id}, now, schedule, charges)
  {
    hide Attempted;
  }

  lemma AllAttempted(r: TickReport, was: Book, subs: Book, now: nat, schedule: Schedule, charges: map<string, Charge>)
    requires Attempting(was, subs, DueIds(was, now), {}, now, schedule, charges)
    requires Reported(r, was, DueIds(was, now), now, schedule, charges)
    ensures was.Keys == subs.Keys <= charges.Keys
    ensures subs == map id | id in was :: Ticked(was[id], now, schedule, charges[id])
    ensures forall id <- was ::
              subs[id] == if was[id].status in {Active, Trialing} && was[id].nextChargeAt <= now && was[id].hasPayment
                          then Attempted(was[id], now, schedule, charges[id]) else was[id]
    ensures r.renewed == |ChargedAmong(DueIds(was, now), charges)|
    ensures r.pastDue == |LapsedAmong(was, DueIds(was, now), now, schedule, charges)|
    ensures r.renewed + r.failed == |DueIds(was, now)| && r.pastDue <= r.failed
  {
    hide Attempted;
    assert DueIds(was, now) - {} == DueIds(was, now);
  }

  /** What the report says once the subscriptions in `done` have been attempted. */
  ghost predicate Reported(r: TickReport, was: Book, done: set<string>, now: nat, schedule: Schedule,
                           charges: map<string, Charge>)
  {
    r.renewed == |ChargedAmong(done, charges)| && r.pastDue == |LapsedAmong(was, done, now, schedule, charges)|
    && r.renewed + r.failed == |done| && r.pastDue <= r.failed
  }

  lemma PassStarts(was: Book, due: set<string>, now: nat, schedule: Schedule, charges: map<string, Charge>)
    requires due <= was.Keys <= charges.Keys
    ensures Attempting(was, was, due, due, now, schedule, charges)
    ensures Reported(TickReport(|was|, |due|, 0, 0, 0), was, due - due, now, schedule, charges)
  {
    hide Attempted;
    NoneAmong(was, due - due, now, schedule, charges);
  }

  lemma ReportStep(r: TickReport, was: Book, done: set<string>, id: string, now: nat, schedule: Schedule,
                   charges: map<string, Charge>)
    requires Reported(r, was, done, now, schedule, charges) && id in was && id in charges && id !in done
    ensures var next := Counted(r, charges[id], Attempted(was[id], now, schedule, charges[id]));
            Reported(next, was, done + {id}, now, schedule, charges) && next.scanned == r.scanned && next.due == r.due
  {
    hide Attempted;
    OneMoreAmong(was, done, id, now, schedule, charges);
  }

  function ChargedAmong(ids: set<string>, charges: map<string, Charge>): set<string> {
    set id | id in ids && id in charges && charges[id].Charged?
  }

  /** The ones whose failed charge was the last they had. */
  function LapsedAmong(b: Book, ids: set<string>, now: nat, schedule: Schedule,
                       charges: map<string, Charge>): set<string>
  {
    set id | id in ids && id in b && id in charges && charges[id].Declined?
             && Attempted(b[id], now, schedule, charges[id]).status == PastDue
  }

  lemma NoneAmong(b: Book, ids: set<string>, now: nat, schedule: Schedule, charges: map<string, Charge>)
    requires ids == {}
    ensures ChargedAmong(ids, charges) == {} == LapsedAmong(b, ids, now, schedule, charges)
  {
  }

  lemma OneMoreAmong(b: Book, ids: set<string>, id: string, now: nat, schedule: Schedule, charges: map<string, Charge>)
    requires id in b && id in charges && id !in ids
    ensures var lapsed := charges[id].Declined? && Attempted(b[id], now, schedule, charges[id]).status == PastDue;
            |ChargedAmong(ids + {id}, charges)|
              == |ChargedAmong(ids, charges)| + (if charges[id].Charged? then 1 else 0)
            && |LapsedAmong(b, ids + {id}, now, schedule, charges)|
                 == |LapsedAmong(b, ids, now, schedule, charges)| + (if lapsed then 1 else 0)
  {
    var charged, lapsed := ChargedAmong(ids, charges), LapsedAmong(b, ids, now, schedule, charges);
    assert ChargedAmong(ids + {id}, charges) == if charges[id].Charged? then charged + {id} else charged;
    assert LapsedAmong(b, ids + {id}, now, schedule, charges)
        == if id in LapsedAmong(b, {id}, now, schedule, charges) then lapsed + {id} else lapsed;
  }

  function Counted(r: TickReport, c: Charge, s: Subscription): TickReport {
    if c.Charged? then r.(renewed := r.renewed + 1)
    else r.(failed := r.failed + 1, pastDue := if s.status == PastDue then r.pastDue + 1 else r.pastDue)
  }

  function DueIds(b: Book, now: nat): set<string> { set id | id in b && Due(b[id], now) }
}
