/** The delivery worker over whole runs: passes of at most fifty sends, crashes in the
    middle of a send, start-up recovery, operator retries, new events and retention. */
module OutboxWorker {
  import opened Measures
  import opened Outbox
  import opened Wrappers

  const BATCH: nat := 50

  datatype TickReport = TickReport(due: nat, delivered: nat, failed: nat, deadLettered: nat)

  /** The destination's answer to a send, and the time it came. */
  datatype Answer = Answer(outcome: Outcome, at: int)

  function AfterSend(d: Delivery, now: int, a: Answer): Delivery { Settled(Sending(d, now), a.outcome, a.at) }

  function Counted(r: TickReport, s: Status): TickReport {
    match s
    case Delivered => r.(delivered := r.delivered + 1)
    case DeadLettered => r.(deadLettered := r.deadLettered + 1)
    case _ => r.(failed := r.failed + 1)
  }

  /** What a pass makes of the rows of its batch, in order. */
  function Results(rows: Rows, batch: seq<string>, now: int, answers: seq<Answer>): seq<Delivery>
    requires |batch| <= |answers| && forall id <- batch :: id in rows
  {
    seq(|batch|, i requires 0 <= i < |batch| => AfterSend(rows[batch[i]], now, answers[i]))
  }

  function Tally(due: nat, results: seq<Delivery>): (r: TickReport)
    ensures r.due == due && |results| == r.delivered + r.failed + r.deadLettered
  {
    if results == [] then TickReport(due, 0, 0, 0)
    else Counted(Tally(due, results[..|results| - 1]), results[|results| - 1].status)
  }

  lemma ResultsDeliver(rows: Rows, batch: seq<string>, now: int, answers: seq<Answer>)
    requires |batch| <= |answers| && forall id <- batch :: id in rows
    ensures forall i | 0 <= i < |batch| ::
              Results(rows, batch, now, answers)[i].status == Delivered <==>
                answers[i].outcome.Responded? && 200 <= answers[i].outcome.code < 300
  {
  }

  lemma TallyNone(due: nat)
    ensures Tally(due, []) == TickReport(due, 0, 0, 0)
  {
  }

  lemma TallyNext(due: nat, results: seq<Delivery>, n: nat)
    requires n < |results|
    ensures Tally(due, results[..n + 1]) == Counted(Tally(due, results[..n]), results[n].status)
  {
    assert results[..n + 1][..n] == results[..n];
  }

  /** One send, from marking the row to recording its answer. */
  method Attempt(outbox: WebhookOutbox, id: string, now: int, a: Answer, before: TickReport)
    returns (report: TickReport)
    requires id in outbox.rows
    modifies outbox
    ensures outbox.rows == old(outbox.rows)[id := AfterSend(old(outbox.rows)[id], now, a)]
    ensures report == Counted(before, outbox.rows[id].status)
    ensures if a.outcome.Responded? && 200 <= a.outcome.code < 300
            then outbox.rows[id].status == Delivered && report == before.(delivered := before.delivered + 1)
            else outbox.rows[id].status in {Failed, DeadLettered} && report.delivered == before.delivered
  {
    outbox.MarkInFlight(id, now);
    if Accepted(a.outcome) {
      outbox.MarkDelivered(id, a.outcome.code, a.at);
      report := before.(delivered := before.delivered + 1);
    } else {
      outbox.BumpFailure(id, CodeOf(a.outcome), Some(ErrorOf(a.outcome)), a.at, a.outcome);
      if outbox.rows[id].status == DeadLettered {
        report := before.(deadLettered := before.deadLettered + 1);
      } else {
        report := before.(failed := before.failed + 1);
      }
    }
  }

  /** One pass that nothing interrupts settles every row of its batch with that row's own
      answer, leaves every other row alone, and reports each send once. */
  method Tick(outbox: WebhookOutbox, now: int, answers: seq<Answer>) returns (batch: seq<string>, report: TickReport)
    requires |answers| == BATCH
    modifies outbox
    ensures IsDueBatch(old(outbox.rows), now, BATCH, batch)
    ensures outbox.rows.Keys == old(outbox.rows.Keys)
    ensures var results := Results(old(outbox.rows), batch, now, answers);
            |results| == |batch|
            && (forall i | 0 <= i < |batch| ::
                  outbox.rows[batch[i]].status == Delivered <==>
                    answers[i].outcome.Responded? && 200 <= answers[i].outcome.code < 300)
            && (forall i | 0 <= i < |batch| :: outbox.rows[batch[i]] == results[i])
            && report == Tally(|batch|, results)
    ensures forall id <- outbox.rows | id !in batch :: outbox.rows[id] == old(outbox.rows)[id]
  {
    hide Due, Waiting, Settled, Accepted, Counted, Tally, AfterSend;
    ghost var was := outbox.rows;
    batch := outbox.ListDue(now, BATCH);
    ghost var results := Results(was, batch, now, answers);
    ResultsDeliver(was, batch, now, answers);
    TallyNone(|batch|);
    report := TickReport(|batch|, 0, 0, 0);
    var n := 0;
    while n < |batch|
      invariant n <= |batch| && SettledSoFar(was, outbox.rows, batch, results, n)
      invariant report == Tally(|batch|, results[..n])
    {
      TallyNext(|batch|, results, n);
      SettleNext(was, outbox.rows, batch, results, n);
      report := Attempt(outbox, batch[n], now, answers[n], report);
      n := n + 1;
    }
    assert results[..n] == results;
  }

  /** The first `n` rows of the batch are settled; every other row is as it was. */
  ghost predicate SettledSoFar(was: Rows, rows: Rows, batch: seq<string>, results: seq<Delivery>, n: nat)
    requires n <= |batch| == |results|
  {
    rows.Keys == was.Keys
    && (forall i | 0 <= i < |batch| :: batch[i] in was)
    && (forall i | 0 <= i < n :: rows[batch[i]] == results[i])
    && (forall id <- was | id !in batch[..n] :: rows[id] == was[id])
  }

  lemma SettleNext(was: Rows, rows: Rows, batch: seq<string>, results: seq<Delivery>, n: nat)
    requires n < |batch| == |results| && SettledSoFar(was, rows, batch, results, n)
    requires forall i, j | 0 <= i < j < |batch| :: batch[i] != batch[j]
    ensures batch[n] in rows && rows[batch[n]] == was[batch[n]]
    ensures SettledSoFar(was, rows[batch[n] := results[n]], batch, results, n + 1)
  {
    assert batch[n] !in batch[..n];
    assert batch[..n + 1] == batch[..n] + [batch[n]];
  }

  // ---- runs ----------------------------------------------------------------------

  /** Since a row was enqueued or last retried by an operator: the sends begun, those cut
      short and reclaimed, and the crashes of the worker. */
  datatype Cycle = Cycle(started: nat, reclaimed: nat, crashes: nat)

  /** `queue` holds what is left of the batch of the pass under way; while `sending`, its
      head is in flight. `passes` counts completed passes. */
  datatype State = State(
    now: int,
    rows: Rows,
    cycles: map<string, Cycle>,
    up: bool,
    ticking: bool,
    sending: bool,
    queue: seq<string>,
    passes: nat)

  datatype Op =
    | Enqueue(at: int, id: string, delivery: Delivery)
    | TickStart(at: int, batch: seq<string>)
    | Send(at: int)
    | Settle(at: int, outcome: Outcome)
    | TickEnd
    | Prune(delivered: Option<int>, dead: Option<int>)
    | Retry(at: int, id: string)
    | Crash
    | Startup(at: int)

  function Init(start: int): State { State(start, map[], map[], false, false, false, [], 0) }

  predicate FreshDelivery(d: Delivery, at: int) {
    d.status == Pending && d.attempts == 0 && 1 <= d.maxAttempts <= U32_MAX && d.nextAt == at && d.deliveredAt.None?
  }

  ghost predicate Enabled(s: State, op: Op) {
    match op
    case Enqueue(at, id, d) => at >= s.now && id !in s.rows && FreshDelivery(d, at)
    case TickStart(at, batch) => at >= s.now && s.up && !s.ticking && IsDueBatch(s.rows, at, BATCH, batch)
    case Send(at) => at >= s.now && s.ticking && !s.sending && s.queue != [] && s.queue[0] in s.rows
    case Settle(at, _) => at >= s.now && s.sending && s.queue != [] && s.queue[0] in s.rows
    case TickEnd => s.ticking && s.queue == []
    case Prune(_, _) => true
    case Retry(at, id) => at >= s.now && RefusalOf(s.rows, id).None? && id in s.cycles
    case Crash => s.up
    case Startup(at) => at >= s.now && !s.up
  }

  function Crashed(c: Cycle): Cycle { c.(crashes := c.crashes + 1) }

  function Recovered(c: Cycle, d: Delivery): Cycle {
    if d.status == InFlight then c.(reclaimed := c.reclaimed + 1) else c
  }

  function Begun(c: Cycle): Cycle { c.(started := c.started + 1) }

  ghost function Apply(s: State, op: Op): State
    requires Enabled(s, op)
  {
    match op
    case Enqueue(at, id, d) => s.(now := at, rows := s.rows[id := d], cycles := s.cycles[id := Cycle(0, 0, 0)])
    case TickStart(at, batch) => s.(now := at, ticking := true, queue := batch)
    case Send(at) =>
      var id := s.queue[0];
      s.(now := at, sending := true, rows := s.rows[id := Sending(s.rows[id], at)],
         cycles := if id in s.cycles then s.cycles[id := Begun(s.cycles[id])] else s.cycles)
    case Settle(at, o) =>
      var id := s.queue[0];
      s.(now := at, sending := false, queue := s.queue[1..], rows := s.rows[id := Settled(s.rows[id], o, at)])
    case TickEnd => s.(ticking := false, passes := s.passes + 1)
    case Prune(delivered, dead) => s.(rows := Kept(s.rows, delivered, dead))
    case Retry(at, id) =>
      s.(now := at, rows := s.rows[id := Reset(s.rows[id], at)], cycles := s.cycles[id := Cycle(0, 0, 0)])
    case Crash =>
      s.(up := false, ticking := false, sending := false, queue := [],
         cycles := map id | id in s.cycles :: Crashed(s.cycles[id]))
    case Startup(at) =>
      s.(now := at, up := true,
         rows := map id | id in s.rows :: Reclaimed(s.rows[id], at),
         cycles := map id | id in s.cycles ::
           if id in s.rows then Recovered(s.cycles[id], s.rows[id]) else s.cycles[id])
  }

  ghost predicate IsRun(ops: seq<Op>, ss: seq<State>) {
    |ss| == |ops| + 1
    && (exists start :: ss[0] == Init(start))
    && forall i | 0 <= i < |ops| :: Enabled(ss[i], ops[i]) && ss[i + 1] == Apply(ss[i], ops[i])
  }

  // ---- what every step keeps -----------------------------------------------------

  /** The books of one row: attempts stay below the maximum until it is settled, and every
      send begun in the cycle was answered, cut short, or is still out. */
  predicate RowOk(d: Delivery, c: Cycle, up: bool) {
    1 <= d.maxAttempts <= U32_MAX
    && d.attempts <= d.maxAttempts
    && (Waiting(d) || d.status == InFlight ==> d.attempts < d.maxAttempts)
    && c.started == d.attempts + c.reclaimed + (if d.status == InFlight then 1 else 0)
    && c.reclaimed + (if d.status == InFlight && !up then 1 else 0) <= c.crashes
  }

  ghost predicate QueueOk(s: State) {
    (s.ticking ==> s.up)
    && (s.queue != [] ==> s.ticking)
    && (s.sending ==> s.queue != [])
    && (forall i, j | 0 <= i < j < |s.queue| :: s.queue[i] != s.queue[j])
    && (forall i | 0 <= i < |s.queue| :: s.queue[i] in s.rows
          && (if i == 0 && s.sending then s.rows[s.queue[i]].status == InFlight else Waiting(s.rows[s.queue[i]])))
    && (forall id <- s.rows | s.rows[id].status == InFlight :: s.up ==> s.sending && s.queue[0] == id)
  }

  ghost predicate Inv(s: State) {
    QueueOk(s)
    && (forall id <- s.rows :: id in s.cycles && RowOk(s.rows[id], s.cycles[id], s.up))
  }

  lemma QueueKept(s: State, op: Op)
    requires Inv(s) && Enabled(s, op)
    ensures QueueOk(Apply(s, op))
  {
  }

  lemma RowsKept(s: State, op: Op, id: string)
    requires Inv(s) && Enabled(s, op) && id in Apply(s, op).rows
    ensures var t := Apply(s, op); id in t.cycles && RowOk(t.rows[id], t.cycles[id], t.up)
  {
    if id in s.rows { assert RowOk(s.rows[id], s.cycles[id], s.up); }
  }

  lemma StepKeeps(s: State, op: Op)
    requires Inv(s) && Enabled(s, op)
    ensures Inv(Apply(s, op))
  {
    QueueKept(s, op);
    forall id | id in Apply(s, op).rows
      ensures var t := Apply(s, op); id in t.cycles && RowOk(t.rows[id], t.cycles[id], t.up)
    {
      RowsKept(s, op, id);
    }
  }

  lemma {:induction false} RunKeeps(ops: seq<Op>, ss: seq<State>, n: nat)
    requires IsRun(ops, ss) && n <= |ops|
    ensures Inv(ss[n])
  {
    if n > 0 {
      RunKeeps(ops, ss, n - 1);
      StepKeeps(ss[n - 1], ops[n - 1]);
    }
  }

  // ---- no event is lost, and sends are accounted for -----------------------------

  /** A row leaves the table only once it was delivered or dead-lettered; whatever else
      happens, what would be sent and where does not change. */
  lemma NoEventLost(ops: seq<Op>, ss: seq<State>, i: nat, id: string)
    requires IsRun(ops, ss) && i < |ops| && id in ss[i].rows
    ensures id !in ss[i + 1].rows ==> ss[i].rows[id].status in {Delivered, DeadLettered}
    ensures id in ss[i + 1].rows ==>
              ss[i + 1].rows[id].url == ss[i].rows[id].url && ss[i + 1].rows[id].payload == ss[i].rows[id].payload
  {
    assert ss[i + 1] == Apply(ss[i], ops[i]);
  }

  /** Once the worker is back up after a crash, nothing is stranded in flight: what was is
      pending and due. */
  lemma NothingStranded(ops: seq<Op>, ss: seq<State>, i: nat, id: string)
    requires IsRun(ops, ss) && i < |ops| && ops[i].Startup? && id in ss[i].rows
    ensures id in ss[i + 1].rows && ss[i + 1].rows[id].status != InFlight
    ensures ss[i].rows[id].status == InFlight ==>
              ss[i + 1].rows[id].status == Pending && ss[i + 1].rows[id].nextAt == ss[i + 1].now
  {
    assert ss[i + 1] == Apply(ss[i], ops[i]);
  }

  /** In every cycle the sends begun are the attempts recorded, the sends cut short, and
      the one that is out; so no destination sees more sends of an event than the maximum
      plus one for every crash. */
  lemma SendsAccounted(ops: seq<Op>, ss: seq<State>, i: nat, id: string)
    requires IsRun(ops, ss) && i <= |ops| && id in ss[i].rows
    ensures id in ss[i].cycles
    ensures var d, c := ss[i].rows[id], ss[i].cycles[id];
            c.started == d.attempts + c.reclaimed + (if d.status == InFlight then 1 else 0)
            && c.started <= d.maxAttempts + c.crashes
            && (Waiting(d) || d.status == InFlight ==> d.attempts < d.maxAttempts)
  {
    RunKeeps(ops, ss, i);
    assert RowOk(ss[i].rows[id], ss[i].cycles[id], ss[i].up);
  }

  predicate AcceptedAt(ops: seq<Op>, ss: seq<State>, k: nat, id: string) {
    k < |ops| && k < |ss| && ops[k].Settle? && Accepted(ops[k].outcome) && ss[k].queue != [] && ss[k].queue[0] == id
  }

  /** A row counts as delivered only after its destination accepted a send of it. */
  lemma {:induction false} DeliveredWasAccepted(ops: seq<Op>, ss: seq<State>, i: nat, id: string)
    requires IsRun(ops, ss) && i <= |ops| && id in ss[i].rows && ss[i].rows[id].status == Delivered
    ensures exists k :: 0 <= k < i && AcceptedAt(ops, ss, k, id)
  {
    if i > 0 {
      assert ss[i] == Apply(ss[i - 1], ops[i - 1]);
      if id in ss[i - 1].rows && ss[i - 1].rows[id].status == Delivered {
        DeliveredWasAccepted(ops, ss, i - 1, id);
      } else {
        assert AcceptedAt(ops, ss, i - 1, id);
      }
    }
  }

  /** And an accepted send delivers its row, with the code and the time of the answer. */
  lemma AcceptedDelivers(ops: seq<Op>, ss: seq<State>, i: nat, id: string)
    requires IsRun(ops, ss) && AcceptedAt(ops, ss, i, id)
    ensures id in ss[i + 1].rows
    ensures var d := ss[i + 1].rows[id];
            d.status == Delivered && d.lastCode == Some(ops[i].outcome.code) && d.lastError == None
            && d.deliveredAt == Some(ops[i].at)
  {
    assert ss[i + 1] == Apply(ss[i], ops[i]);
  }

  lemma DeliveredStep(s: State, op: Op, id: string)
    requires QueueOk(s) && Enabled(s, op) && id in s.rows && s.rows[id].status == Delivered && id in Apply(s, op).rows
    ensures Apply(s, op).rows[id] == s.rows[id]
    ensures !(op.Send? && s.queue != [] && s.queue[0] == id)
  {
  }

  lemma DeliveredRunStep(ops: seq<Op>, ss: seq<State>, j: nat, id: string)
    requires IsRun(ops, ss) && j < |ops| && id in ss[j].rows && ss[j].rows[id].status == Delivered
    requires id in ss[j + 1].rows
    ensures ss[j + 1].rows[id] == ss[j].rows[id] && !SentAt(ops, ss, j, id)
  {
    RunKeeps(ops, ss, j);
    assert ss[j + 1] == Apply(ss[j], ops[j]);
    DeliveredStep(ss[j], ops[j], id);
  }

  /** From then on, while the row is in the table, it stays as it is and is not sent again. */
  lemma {:induction false} AcceptedIsFinal(ops: seq<Op>, ss: seq<State>, i: nat, j: nat, id: string)
    requires IsRun(ops, ss) && AcceptedAt(ops, ss, i, id) && i < j <= |ops|
    requires forall k | i < k <= j :: id in ss[k].rows
    ensures ss[j].rows[id] == ss[i + 1].rows[id] && ss[j].rows[id].status == Delivered
    ensures forall k | i < k < j :: !SentAt(ops, ss, k, id)
  {
    hide Apply, Enabled;
    AcceptedDelivers(ops, ss, i, id);
    if j > i + 1 {
      AcceptedIsFinal(ops, ss, i, j - 1, id);
      DeliveredRunStep(ops, ss, j - 1, id);
    }
  }

  /** A send that is not accepted counts as an attempt: it uses up the last one, or leaves the
      row failed and due again after the square of the attempts in seconds, an hour at most. */
  lemma RefusedCounts(ops: seq<Op>, ss: seq<State>, i: nat, id: string)
    requires IsRun(ops, ss) && i < |ops| && ops[i].Settle? && !AcceptedAt(ops, ss, i, id) && ss[i].queue[0] == id
    ensures id in ss[i].rows && id in ss[i + 1].rows
    ensures var d, e := ss[i].rows[id], ss[i + 1].rows[id];
            e.attempts == d.attempts + 1
            && (if e.attempts == d.maxAttempts then e.status == DeadLettered
                else e.status == Failed
                     && e.nextAt == ops[i].at + (if e.attempts < 60 then e.attempts * e.attempts else 3600) * SECOND)
  {
    RunKeeps(ops, ss, i);
    assert RowOk(ss[i].rows[id], ss[i].cycles[id], ss[i].up);
    BackoffIsSquare(ss[i].rows[id].attempts + 1);
  }

  /** An operator's retry makes a failed or dead row pending, due at once, with all its
      attempts. */
  lemma RetryStartsOver(ops: seq<Op>, ss: seq<State>, i: nat)
    requires IsRun(ops, ss) && i < |ops| && ops[i].Retry?
    ensures ops[i].id in ss[i].rows && ss[i].rows[ops[i].id].status in {Failed, DeadLettered}
    ensures ops[i].id in ss[i + 1].rows
    ensures var d := ss[i + 1].rows[ops[i].id]; d.status == Pending && d.attempts == 0 && d.nextAt == ops[i].at
  {
    assert ss[i + 1] == Apply(ss[i], ops[i]);
  }

  /** A row is dead-lettered only with its attempts used up. */
  lemma {:induction false} DeadMeansExhausted(ops: seq<Op>, ss: seq<State>, i: nat, id: string)
    requires IsRun(ops, ss) && i <= |ops| && id in ss[i].rows && ss[i].rows[id].status == DeadLettered
    ensures ss[i].rows[id].attempts == ss[i].rows[id].maxAttempts
  {
    if i > 0 {
      RunKeeps(ops, ss, i - 1);
      assert RowOk(ss[i - 1].rows[id], ss[i - 1].cycles[id], ss[i - 1].up);
      assert ss[i] == Apply(ss[i - 1], ops[i - 1]);
      if ss[i - 1].rows[id].status == DeadLettered { DeadMeansExhausted(ops, ss, i - 1, id); }
    }
  }

  // ---- no starvation -------------------------------------------------------------

  /** The rows a pass would take before `x`, or in a tie with it. */
  ghost function Ahead(s: State, x: string): set<string>
    requires x in s.rows
  {
    set id | id in s.rows && id != x && Waiting(s.rows[id]) && s.rows[id].nextAt <= s.rows[x].nextAt
  }

  ghost predicate Overdue(s: State, x: string, due: int) {
    x in s.rows && Waiting(s.rows[x]) && s.rows[x].nextAt == due < s.now
  }

  predicate Touches(s: State, op: Op, x: string) {
    (op.Retry? && op.id == x) || (op.Send? && s.queue != [] && s.queue[0] == x)
  }

  lemma StillOverdue(s: State, op: Op, x: string, due: int)
    requires Inv(s) && Enabled(s, op) && Overdue(s, x, due) && !Touches(s, op, x)
    ensures Overdue(Apply(s, op), x, due)
  {
  }

  /** While `x` waits, nothing gets ahead of it: rows enter or re-enter with a later time. */
  lemma AheadShrinks(s: State, op: Op, x: string, due: int)
    requires Inv(s) && Enabled(s, op) && Overdue(s, x, due) && !Touches(s, op, x)
    ensures Overdue(Apply(s, op), x, due) && Ahead(Apply(s, op), x) <= Ahead(s, x)
  {
    StillOverdue(s, op, x, due);
    forall id | id in Ahead(Apply(s, op), x) ensures id in Ahead(s, x) {
      LateRowsStayBehind(s, op, id, due);
    }
  }

  lemma LateRowsStayBehind(s: State, op: Op, id: string, due: int)
    requires Inv(s) && Enabled(s, op) && due < s.now
    requires var t := Apply(s, op); id in t.rows && Waiting(t.rows[id]) && t.rows[id].nextAt <= due
    ensures id in s.rows && Waiting(s.rows[id]) && s.rows[id].nextAt <= due
  {
    if op.Settle? { BackoffPositive(Succ32(s.rows[s.queue[0]].attempts)); }
  }

  lemma BackoffPositive(n: nat)
    ensures BackoffFor(n) >= 0
  {
  }

  ghost function Queued(queue: seq<string>): set<string> { set id | id in queue }

  lemma {:induction false} QueuedCount(queue: seq<string>)
    requires forall i, j | 0 <= i < j < |queue| :: queue[i] != queue[j]
    ensures |Queued(queue)| == |queue|
  {
    if queue != [] {
      QueuedCount(queue[1..]);
      assert Queued(queue) == Queued(queue[1..]) + {queue[0]};
    } else {
      assert Queued(queue) == {};
    }
  }

  lemma SmallerSet(a: set<string>, b: set<string>)
    requires a <= b
    ensures |a| <= |b|
  {
    assert b == a + (b - a);
  }

  /** After `c` whole passes without `x`, fifty rows ahead of it are gone for each, and the
      pass under way has taken, or holds, fifty more, unless it holds `x` itself. */
  ghost predicate Progress(s: State, x: string, r: nat, c: int)
    requires x in s.rows
  {
    var a := Ahead(s, x);
    |a| <= r && |a| + BATCH * c <= r
    && (s.ticking && c >= 0 && x !in s.queue ==> |a - Queued(s.queue)| + BATCH * (c + 1) <= r)
  }

  lemma StartKeepsProgress(s: State, op: Op, x: string, due: int, r: nat, c: int)
    requires op.TickStart? && Enabled(s, op) && Overdue(s, x, due) && Progress(s, x, r, c)
    ensures Progress(Apply(s, op), x, r, c)
  {
    var a, q := Ahead(s, x), Queued(op.batch);
    assert Ahead(Apply(s, op), x) == a;
    if x !in op.batch {
      QueuedCount(op.batch);
      assert Due(s.rows[x], op.at);
      assert q <= a;
      assert |a| == |q| + |a - q| by { assert a == q + (a - q); }
    }
  }

  lemma EndKeepsProgress(s: State, op: Op, x: string, due: int, r: nat, c: int)
    requires op.TickEnd? && Enabled(s, op) && Overdue(s, x, due) && Progress(s, x, r, c) && c >= -1
    ensures Progress(Apply(s, op), x, r, c + 1)
  {
    assert Ahead(Apply(s, op), x) == Ahead(s, x);
    assert Ahead(s, x) - Queued(s.queue) == Ahead(s, x);
  }

  lemma OtherKeepsProgress(s: State, op: Op, x: string, due: int, r: nat, c: int)
    requires !op.TickStart? && !op.TickEnd?
    requires Inv(s) && Enabled(s, op) && Overdue(s, x, due) && !Touches(s, op, x) && Progress(s, x, r, c)
    ensures x in Apply(s, op).rows && Progress(Apply(s, op), x, r, c)
  {
    var t := Apply(s, op);
    AheadShrinks(s, op, x, due);
    var a, b := Ahead(s, x), Ahead(t, x);
    SmallerSet(b, a);
    if t.ticking && c >= 0 && x !in t.queue {
      QueueLetsGo(s, op, x, due);
      SmallerSet(b - Queued(t.queue), a - Queued(s.queue));
    }
  }

  /** A row the pass is done with is not ahead of `x` any more. */
  lemma QueueLetsGo(s: State, op: Op, x: string, due: int)
    requires !op.TickStart? && !op.TickEnd?
    requires Inv(s) && Enabled(s, op) && Overdue(s, x, due) && !Touches(s, op, x)
    requires Apply(s, op).ticking && x !in Apply(s, op).queue
    ensures x in Apply(s, op).rows && x !in s.queue
    ensures Ahead(Apply(s, op), x) - Queued(Apply(s, op).queue) <= Ahead(s, x) - Queued(s.queue)
  {
    AheadShrinks(s, op, x, due);
    if op.Settle? {
      assert s.queue == [s.queue[0]] + s.queue[1..];
      BackoffPositive(Succ32(s.rows[s.queue[0]].attempts));
      assert s.queue[0] !in Ahead(Apply(s, op), x);
    }
  }

  lemma StepKeepsProgress(s: State, op: Op, x: string, due: int, r: nat, base: int)
    requires Inv(s) && Enabled(s, op) && Overdue(s, x, due) && !Touches(s, op, x)
    requires s.passes - base >= -1 && Progress(s, x, r, s.passes - base)
    ensures var t := Apply(s, op); Overdue(t, x, due) && t.passes - base >= -1 && Progress(t, x, r, t.passes - base)
  {
    StillOverdue(s, op, x, due);
    if op.TickStart? { StartKeepsProgress(s, op, x, due, r, s.passes - base); }
    else if op.TickEnd? { EndKeepsProgress(s, op, x, due, r, s.passes - base); }
    else { OtherKeepsProgress(s, op, x, due, r, s.passes - base); }
  }

  /** The passes completed since, not counting one already under way. */
  function FirstPass(s: State): nat { if s.ticking then s.passes + 1 else s.passes }

  lemma ProgressStarts(s: State, x: string)
    requires x in s.rows
    ensures -1 <= s.passes - FirstPass(s) <= 0 && Progress(s, x, |Ahead(s, x)|, s.passes - FirstPass(s))
  {
    SmallerSet(Ahead(s, x) - Queued(s.queue), Ahead(s, x));
  }

  lemma RunStepKeepsProgress(ops: seq<Op>, ss: seq<State>, i: nat, x: string, due: int, r: nat, base: int)
    requires IsRun(ops, ss) && i < |ops| && Overdue(ss[i], x, due) && !Touches(ss[i], ops[i], x)
    requires ss[i].passes - base >= -1 && Progress(ss[i], x, r, ss[i].passes - base)
    ensures var t := ss[i + 1]; Overdue(t, x, due) && t.passes - base >= -1 && Progress(t, x, r, t.passes - base)
  {
    RunKeeps(ops, ss, i);
    StepKeepsProgress(ss[i], ops[i], x, due, r, base);
  }

  lemma {:induction false} RunKeepsProgress(ops: seq<Op>, ss: seq<State>, from: nat, n: nat, x: string)
    requires IsRun(ops, ss) && from <= n <= |ops| && x in ss[from].rows
    requires Overdue(ss[from], x, ss[from].rows[x].nextAt)
    requires forall k | from <= k < n :: !Touches(ss[k], ops[k], x)
    ensures Overdue(ss[n], x, ss[from].rows[x].nextAt)
    ensures ss[n].passes - FirstPass(ss[from]) >= -1
    ensures Progress(ss[n], x, |Ahead(ss[from], x)|, ss[n].passes - FirstPass(ss[from]))
  {
    if n == from {
      ProgressStarts(ss[from], x);
    } else {
      RunKeepsProgress(ops, ss, from, n - 1, x);
      RunStepKeepsProgress(ops, ss, n - 1, x, ss[from].rows[x].nextAt, |Ahead(ss[from], x)|, FirstPass(ss[from]));
    }
  }

  predicate SentAt(ops: seq<Op>, ss: seq<State>, k: nat, x: string) {
    k < |ops| && k < |ss| && ops[k].Send? && ss[k].queue != [] && ss[k].queue[0] == x
  }

  /** An overdue row with `r` rows at or before it is sent within r/50 + 1 further passes,
      whatever fails, crashes, is enqueued, reclaimed or retried meanwhile. */
  lemma NoStarvation(ops: seq<Op>, ss: seq<State>, from: nat, n: nat, x: string)
    requires IsRun(ops, ss) && from <= n <= |ops| && x in ss[from].rows
    requires ss[from].rows[x].status in {Pending, Failed} && ss[from].rows[x].nextAt < ss[from].now
    requires forall k | from <= k < n :: !(ops[k].Retry? && ops[k].id == x)
    requires var rows := ss[from].rows;
             var before := set id | id in rows && id != x && rows[id].status in {Pending, Failed}
                                    && rows[id].nextAt <= rows[x].nextAt;
             ss[n].passes >= (if ss[from].ticking then ss[from].passes + 1 else ss[from].passes) + |before| / 50 + 1
    ensures exists k :: from <= k < n && SentAt(ops, ss, k, x)
  {
    var rows := ss[from].rows;
    assert Ahead(ss[from], x) == set id | id in rows && id != x && rows[id].status in {Pending, Failed}
                                          && rows[id].nextAt <= rows[x].nextAt;
    if forall k | from <= k < n :: !SentAt(ops, ss, k, x) {
      assert forall k | from <= k < n :: !Touches(ss[k], ops[k], x) by {
        forall k | from <= k < n ensures !Touches(ss[k], ops[k], x) { assert !SentAt(ops, ss, k, x); }
      }
      RunKeepsProgress(ops, ss, from, n, x);
      assert false;
    }
  }

  lemma PendingStep(s: State, op: Op, x: string)
    requires Enabled(s, op) && x in s.rows && s.rows[x].status == Pending
    requires !(op.Send? && s.queue[0] == x) && QueueOk(s)
    ensures var t := Apply(s, op);
            x in t.rows && t.rows[x].status == Pending && t.rows[x].nextAt == s.rows[x].nextAt && !Touches(s, op, x)
  {
  }

  /** Until it is sent a pending row stays as it is; an operator cannot even retry it. */
  lemma {:induction false} PendingStays(ops: seq<Op>, ss: seq<State>, i: nat, n: nat, x: string)
    requires IsRun(ops, ss) && i <= n <= |ops| && x in ss[i].rows && ss[i].rows[x].status == Pending
    requires forall k | i <= k < n :: !SentAt(ops, ss, k, x)
    ensures x in ss[n].rows && ss[n].rows[x].status == Pending && ss[n].rows[x].nextAt == ss[i].rows[x].nextAt
    ensures forall k | i <= k < n :: !Touches(ss[k], ops[k], x)
  {
    if n > i {
      PendingStays(ops, ss, i, n - 1, x);
      RunKeeps(ops, ss, n - 1);
      assert !SentAt(ops, ss, n - 1, x);
      PendingStep(ss[n - 1], ops[n - 1], x);
    }
  }

  /** A send that a crash interrupted is repeated: once the restarted worker's clock has
      moved on, within r/50 + 1 passes for the r rows at or before it. */
  lemma InterruptedIsResent(ops: seq<Op>, ss: seq<State>, i: nat, from: nat, n: nat, x: string)
    requires IsRun(ops, ss) && i < from <= n <= |ops| && ops[i].Startup?
    requires x in ss[i].rows && ss[i].rows[x].status == InFlight && x in ss[from].rows
    requires ss[from].now > ss[i + 1].now
    requires ss[n].passes >= FirstPass(ss[from]) + |Ahead(ss[from], x)| / 50 + 1
    ensures exists k :: i < k < n && SentAt(ops, ss, k, x)
  {
    NothingStranded(ops, ss, i, x);
    if forall k | i < k < n :: !SentAt(ops, ss, k, x) {
      PendingStays(ops, ss, i + 1, from, x);
      PendingStays(ops, ss, i + 1, n, x);
      RunKeepsProgress(ops, ss, from, n, x);
      assert false;
    }
  }
}
