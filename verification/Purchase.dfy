/** Transactions under concurrent authorize, buy, negotiate and return requests of one
    process, together with the expiry sweeper, which lists and then updates without any
    lock, and process crashes. Every access to the store is a step of its own. */
module Purchase {
  import opened Locks
  import opened Sections
  import opened Wrappers

  datatype TxnState =
    | Draft | Quoted | Authorized | Captured | Fulfilled | Completed | Reversed | Canceled | Expired

  /** `linked` marks a subscription's placeholder, which can be neither authorized nor bought. */
  datatype Txn = Txn(state: TxnState, total: int, expiresAt: Option<int>, linked: bool)

  datatype Intent = Authorize | Buy | Negotiate(newTotal: int) | Return

  datatype Pc = Arrived | AwaitLock | Locked | Checked | Opened | Reserved | Persisted | Written | Unlocked | Gone

  /** `seen` is the transaction as read under the lock, `reserved` what the buy asked the
      mandate ledger for. */
  datatype Request = Request(intent: Intent, txn: string, pc: Pc, seen: Txn, reserved: int)

  datatype Charge = Charge(txn: string, reserved: int, recorded: int)

  datatype State = State(
    now: int,
    txns: map<string, Txn>,
    locks: Table<nat>,
    requests: map<nat, Request>,
    listed: seq<string>,
    charges: seq<Charge>)

  datatype Op =
    | Insert(id: string, txn: Txn)
    | Arrive(req: nat, intent: Intent, id: string)
    | Step(req: nat, at: int, ok: bool)
    | SweepList(at: int, ids: seq<string>)
    | SweepUpdate
    | Crash

  function Init(start: int): State { State(start, map[], Empty(), map[], [], []) }

  predicate QuoteDue(t: Txn, now: int) {
    t.state in {Draft, Quoted} && t.expiresAt.Some? && t.expiresAt.value <= now
  }

  predicate Enabled(s: State, op: Op) {
    match op
    case Insert(id, t) => id !in s.txns && t.state != Completed
    case Arrive(r, _, _) => r !in s.requests
    case SweepList(at, ids) =>
      at >= s.now && s.listed == []
      && (forall id <- ids :: id in s.txns && QuoteDue(s.txns[id], at))
      && (forall id <- s.txns | QuoteDue(s.txns[id], at) :: id in ids)
    case SweepUpdate => s.listed != [] && s.listed[0] in s.txns
    case Crash => true
    case Step(r, at, _) =>
      at >= s.now && r in s.requests
      && match s.requests[r].pc
         case Gone => false
         case Locked => true
         case pc =>
           if MovesLock(pc) then CanMove(s.locks, r, VisitOf(s.requests[r]))
           else s.requests[r].txn in s.txns
  }

  /** Where a request stands with respect to its transaction's lock. */
  function PlaceOf(pc: Pc): Place {
    match pc
    case Arrived => Outside
    case Gone => Outside
    case AwaitLock => Queueing
    case Unlocked => Leaving
    case _ => Inside
  }

  predicate MovesLock(pc: Pc) { pc in {Arrived, AwaitLock, Written, Unlocked} }

  function VisitOf(q: Request): Visit { Visit(TransactionKey(q.txn), PlaceOf(q.pc)) }

  function VisitsOf(s: State): Visits { map r | r in s.requests :: VisitOf(s.requests[r]) }

  /** Whether the state and the link of the transaction just read let the intent go on. */
  predicate Admits(intent: Intent, t: Txn) {
    match intent
    case Authorize => !t.linked && t.state == Quoted
    case Buy => !t.linked && t.state in {Quoted, Authorized}
    case Negotiate(_) => t.state == Quoted
    case Return => true
  }

  /** Authorizing, and buying from `Quoted`, also need the quote to be open. */
  predicate ChecksExpiry(intent: Intent, t: Txn) {
    intent == Authorize || (intent == Buy && t.state == Quoted)
  }

  function WithPc(s: State, r: nat, pc: Pc): State
    requires r in s.requests
  {
    s.(requests := s.requests[r := s.requests[r].(pc := pc)])
  }

  function SetTxn(s: State, id: string, t: Txn): State {
    s.(txns := s.txns[id := t])
  }

  function Apply(s: State, op: Op): State
    requires Enabled(s, op)
  {
    match op
    case Insert(id, t) => SetTxn(s, id, t)
    case Arrive(r, intent, id) =>
      s.(requests := s.requests[r := Request(intent, id, Arrived, Txn(Draft, 0, None, false), 0)])
    case SweepList(at, ids) => s.(now := at, listed := ids)
    case SweepUpdate =>
      var id := s.listed[0];
      SetTxn(s, id, s.txns[id].(state := Expired)).(listed := s.listed[1..])
    case Crash => s.(locks := Empty(), requests := map r | r in s.requests :: s.requests[r].(pc := Gone), listed := [])
    case Step(r, at, ok) => ApplyStep(s.(now := at), r, ok)
  }

  function ApplyStep(s: State, r: nat, ok: bool): State
    requires Enabled(s, Step(r, s.now, ok))
  {
    var q := s.requests[r];
    match q.pc
    case Arrived => WithPc(s, r, AwaitLock).(locks := Move(s.locks, r, VisitOf(q)))
    case AwaitLock => WithPc(s, r, Locked).(locks := Move(s.locks, r, VisitOf(q)))
    case Locked => Read(s, r)
    case Checked => EnsureOpen(s, r)
    case Opened =>
      if q.intent == Buy then
        if ok then s.(requests := s.requests[r := q.(pc := Reserved, reserved := q.seen.total)])
        else WithPc(s, r, Written)
      else
        WithPc(SetTxn(s, q.txn, Changed(q.intent, s.txns[q.txn])), r, Written)
    case Reserved => WithPc(s, r, if ok then Persisted else Written)
    case Persisted =>
      var t := s.txns[q.txn].(state := Completed);
      WithPc(SetTxn(s, q.txn, t), r, Written).(charges := s.charges + [Charge(q.txn, q.reserved, t.total)])
    case Written => WithPc(s, r, Unlocked).(locks := Move(s.locks, r, VisitOf(q)))
    case Unlocked => WithPc(s, r, Gone).(locks := Move(s.locks, r, VisitOf(q)))
    case Gone => s
  }

  function Read(s: State, r: nat): State
    requires r in s.requests
  {
    var q := s.requests[r];
    if q.txn !in s.txns || !Admits(q.intent, s.txns[q.txn]) then WithPc(s, r, Written)
    else
      var t := s.txns[q.txn];
      s.(requests := s.requests[r := q.(pc := if ChecksExpiry(q.intent, t) then Checked else Opened, seen := t)])
  }

  /** An elapsed quote is marked expired, unless it has moved on since it was read. */
  function EnsureOpen(s: State, r: nat): State
    requires r in s.requests && s.requests[r].txn in s.txns
  {
    var q := s.requests[r];
    if q.seen.expiresAt.Some? && q.seen.expiresAt.value <= s.now then
      var t := s.txns[q.txn];
      WithPc(SetTxn(s, q.txn, if QuoteDue(t, s.now) then t.(state := Expired) else t), r, Written)
    else WithPc(s, r, Opened)
  }

  function Changed(intent: Intent, t: Txn): Txn {
    match intent
    case Authorize => t.(state := Authorized)
    case Negotiate(newTotal) => t.(total := newTotal)
    case Return => t.(state := Reversed)
    case Buy => t
  }

  ghost predicate IsRun(ops: seq<Op>, ss: seq<State>) {
    |ss| == |ops| + 1 && ss[0] == Init(ss[0].now)
    && forall i | 0 <= i < |ops| :: Enabled(ss[i], ops[i]) && ss[i + 1] == Apply(ss[i], ops[i])
  }

  // ---- invariant -----------------------------------------------------------------

  /** The request has read its transaction and not yet written it. */
  predicate MidFlight(pc: Pc) { pc in {Checked, Opened, Reserved, Persisted} }

  ghost predicate LocksOk(s: State) { Consistent(s.locks, VisitsOf(s)) }

  ghost predicate Charged(s: State, id: string) {
    exists i | 0 <= i < |s.charges| :: s.charges[i].txn == id
  }

  /** What a request in mid-flight knows is still so: nobody else completed the
      transaction or changed its total since it was read. */
  ghost predicate RequestOk(s: State, q: Request) {
    MidFlight(q.pc) ==>
      q.txn in s.txns && q.seen.total == s.txns[q.txn].total
      && (q.intent != Return ==> !Charged(s, q.txn))
      && (q.pc in {Reserved, Persisted} ==> q.intent == Buy && q.reserved == q.seen.total)
  }

  ghost predicate ChargesOk(s: State) {
    (forall i | 0 <= i < |s.charges| ::
       var c := s.charges[i];
       c.reserved == c.recorded && c.txn in s.txns && s.txns[c.txn].state !in {Draft, Quoted, Authorized})
    && (forall i, j | 0 <= i < j < |s.charges| :: s.charges[i].txn != s.charges[j].txn)
  }

  ghost predicate Valid(s: State) {
    LocksOk(s) && ChargesOk(s)
    && (forall r <- s.requests :: RequestOk(s, s.requests[r]))
    && (forall id <- s.listed :: id in s.txns)
  }

  lemma StepOnLocks(s: State, op: Op)
    requires Enabled(s, op) && op.Step?
    ensures var q, t := s.requests[op.req], Apply(s, op);
            t.requests == s.requests[op.req := t.requests[op.req]]
            && t.requests[op.req].txn == q.txn
            && (if MovesLock(q.pc)
                then PlaceOf(t.requests[op.req].pc) == Next(PlaceOf(q.pc))
                     && t.locks == Move(s.locks, op.req, VisitOf(q))
                else PlaceOf(t.requests[op.req].pc) == PlaceOf(q.pc) && t.locks == s.locks)
  {
  }

  lemma RequestKeepsLocks(s: State, op: Op)
    requires LocksOk(s) && Enabled(s, op) && op.Step?
    ensures LocksOk(Apply(s, op))
  {
    var t, r := Apply(s, op), op.req;
    StepOnLocks(s, op);
    var v := VisitsOf(s)[r];
    if MovesLock(s.requests[r].pc) {
      MoveKeeps(s.locks, VisitsOf(s), r);
      assert VisitsOf(t) == VisitsOf(s)[r := v.(place := Next(v.place))];
    } else {
      assert VisitsOf(t) == VisitsOf(s);
    }
  }

  lemma StepKeepsLocks(s: State, op: Op)
    requires LocksOk(s) && Enabled(s, op)
    ensures LocksOk(Apply(s, op))
  {
    var t := Apply(s, op);
    match op
    case Step(_, _, _) => RequestKeepsLocks(s, op);
    case Arrive(r, _, id) =>
      ArriveKeeps(s.locks, VisitsOf(s), r, TransactionKey(id));
      assert VisitsOf(t) == VisitsOf(s)[r := Visit(TransactionKey(id), Outside)];
    case Crash => assert forall r <- VisitsOf(t) :: VisitsOf(t)[r].place == Outside;
    case _ => assert VisitsOf(t) == VisitsOf(s);
  }

  /** How a request's step changes transactions and charges. */
  lemma StepOnTxns(s: State, op: Op, id: string)
    requires Valid(s) && Enabled(s, op) && op.Step? && id in s.txns
    ensures var q, t := s.requests[op.req], Apply(s, op);
            t.txns.Keys == s.txns.Keys
            && (q.pc != Persisted ==> t.charges == s.charges)
            && (if q.txn != id || q.pc !in {Checked, Opened, Persisted} then t.txns[id] == s.txns[id]
                else if q.pc == Checked then t.txns[id] in {s.txns[id], s.txns[id].(state := Expired)}
                else if q.pc == Persisted then
                  t.txns[id] == s.txns[id].(state := Completed)
                  && t.charges == s.charges + [Charge(id, q.reserved, s.txns[id].total)]
                else t.txns[id] == Changed(q.intent, s.txns[id]))
  {
    assert RequestOk(s, s.requests[op.req]);
  }

  lemma StepKeepsCharges(s: State, op: Op)
    requires Valid(s) && Enabled(s, op)
    ensures ChargesOk(Apply(s, op))
  {
    var t := Apply(s, op);
    if op.Step? {
      var q := s.requests[op.req];
      assert RequestOk(s, q);
      assert q.pc == Persisted ==> q.intent == Buy && !Charged(s, q.txn);
      if q.txn in s.txns { StepOnTxns(s, op, q.txn); }
      forall i | 0 <= i < |s.charges|
        ensures s.charges[i].txn in t.txns && t.txns[s.charges[i].txn].state !in {Draft, Quoted, Authorized}
        ensures q.pc == Persisted ==> s.charges[i].txn != q.txn
      {
        StepOnTxns(s, op, s.charges[i].txn);
      }
    }
  }

  lemma ChargedAfter(s: State, op: Op, id: string)
    requires Enabled(s, op)
    ensures Charged(Apply(s, op), id)
            <==> Charged(s, id) || (op.Step? && s.requests[op.req].pc == Persisted && s.requests[op.req].txn == id)
  {
    var t := Apply(s, op);
    if Charged(s, id) {
      var i :| 0 <= i < |s.charges| && s.charges[i].txn == id;
      assert t.charges[i].txn == id;
    }
    if op.Step? && s.requests[op.req].pc == Persisted && s.requests[op.req].txn == id {
      assert t.charges[|s.charges|].txn == id;
    }
    if Charged(t, id) {
      var i :| 0 <= i < |t.charges| && t.charges[i].txn == id;
      assert i < |s.charges| ==> s.charges[i].txn == id;
    }
  }

  lemma StoreKeepsRequest(s: State, op: Op, u: nat)
    requires Valid(s) && Enabled(s, op) && u in s.requests && !op.Step?
    ensures u in Apply(s, op).requests && RequestOk(Apply(s, op), Apply(s, op).requests[u])
  {
    assert RequestOk(s, s.requests[u]);
    ChargedAfter(s, op, s.requests[u].txn);
  }

  /** While another request steps, the transaction a request is in the middle of keeps its
      total and stays uncharged: a step that could change either would have to be inside the
      same critical section. */
  lemma StepSparesOthers(s: State, op: Op, u: nat)
    requires Valid(s) && Enabled(s, op) && op.Step? && u in s.requests && u != op.req
    requires MidFlight(s.requests[u].pc)
    ensures var id, t := s.requests[u].txn, Apply(s, op);
            id in s.txns && id in t.txns && t.txns[id].total == s.txns[id].total
            && (Charged(t, id) <==> Charged(s, id))
  {
    hide ApplyStep;
    var q, id := s.requests[op.req], s.requests[u].txn;
    assert RequestOk(s, s.requests[u]);
    StepOnTxns(s, op, id);
    ChargedAfter(s, op, id);
    if MidFlight(q.pc) && q.txn == id { OneInside(s.locks, VisitsOf(s), op.req, u); }
  }

  lemma StepKeepsOther(s: State, op: Op, u: nat)
    requires Valid(s) && Enabled(s, op) && u in s.requests && (op.Step? ==> u != op.req)
    ensures u in Apply(s, op).requests && RequestOk(Apply(s, op), Apply(s, op).requests[u])
  {
    if !op.Step? {
      StoreKeepsRequest(s, op, u);
    } else {
      StepOnLocks(s, op);
      assert RequestOk(s, s.requests[u]);
      if MidFlight(s.requests[u].pc) { StepSparesOthers(s, op, u); }
    }
  }

  lemma StepKeepsOwn(s: State, op: Op)
    requires Valid(s) && Enabled(s, op) && op.Step?
    ensures op.req in Apply(s, op).requests && RequestOk(Apply(s, op), Apply(s, op).requests[op.req])
  {
    var q := s.requests[op.req];
    assert RequestOk(s, q);
    ChargedAfter(s, op, q.txn);
  }

  lemma StepKeepsValid(s: State, op: Op)
    requires Valid(s) && Enabled(s, op)
    ensures Valid(Apply(s, op))
  {
    var t := Apply(s, op);
    StepKeepsLocks(s, op);
    StepKeepsCharges(s, op);
    forall u | u in t.requests ensures RequestOk(t, t.requests[u]) {
      if op.Step? && u == op.req { StepKeepsOwn(s, op); }
      else if u in s.requests { StepKeepsOther(s, op, u); }
    }
  }

  lemma {:induction false} RunKeepsValid(ops: seq<Op>, ss: seq<State>, n: nat)
    requires IsRun(ops, ss) && n <= |ops|
    ensures Valid(ss[n])
  {
    if n > 0 {
      RunKeepsValid(ops, ss, n - 1);
      StepKeepsValid(ss[n - 1], ops[n - 1]);
    }
  }

  // ---- a transaction is charged once ---------------------------------------------

  ghost predicate CompletesAt(ss: seq<State>, i: int, id: string)
    requires 0 <= i < |ss| - 1
  {
    id in ss[i + 1].txns && ss[i + 1].txns[id].state == Completed
    && (id in ss[i].txns ==> ss[i].txns[id].state != Completed)
  }

  lemma CompletionIsCharge(ops: seq<Op>, ss: seq<State>, i: nat, id: string)
    requires IsRun(ops, ss) && i < |ops| && CompletesAt(ss, i, id)
    ensures ops[i].Step? && ops[i].req in ss[i].requests
    ensures var q := ss[i].requests[ops[i].req];
            q.intent == Buy && q.pc == Persisted && q.txn == id
            && ss[i + 1].charges == ss[i].charges + [Charge(id, q.reserved, ss[i + 1].txns[id].total)]
  {
    RunKeepsValid(ops, ss, i);
    if ops[i].Step? {
      assert RequestOk(ss[i], ss[i].requests[ops[i].req]);
      StepOnTxns(ss[i], ops[i], id);
    }
  }

  lemma {:induction false} ChargesGrow(ops: seq<Op>, ss: seq<State>, i: nat, j: nat)
    requires IsRun(ops, ss) && i <= j <= |ops|
    ensures ss[i].charges <= ss[j].charges
    decreases j
  {
    if i < j { ChargesGrow(ops, ss, i, j - 1); }
  }

  /** Whatever interleaves, a transaction moves to `Completed` at most once, and the buy that
      moves it reserved exactly the total it then records. */
  lemma ChargedAtMostOnce(ops: seq<Op>, ss: seq<State>, i: nat, j: nat, id: string)
    requires IsRun(ops, ss) && i < |ops| && j < |ops| && CompletesAt(ss, i, id) && CompletesAt(ss, j, id)
    ensures i == j
    ensures ss[i].requests[ops[i].req].reserved == ss[i + 1].txns[id].total
    decreases if i <= j then 0 else 1
  {
    if j < i {
      ChargedAtMostOnce(ops, ss, j, i, id);
    } else {
      CompletionIsCharge(ops, ss, i, id);
      CompletionIsCharge(ops, ss, j, id);
      RunKeepsValid(ops, ss, j + 1);
      ChargesGrow(ops, ss, i + 1, j + 1);
      var k, m := |ss[i].charges|, |ss[j].charges|;
      assert ss[j + 1].charges[k].txn == id && ss[j + 1].charges[m].txn == id;
      assert k == m;
      if i < j { ChargesGrow(ops, ss, i + 1, j); }
    }
  }

  /** `Completed` is left in exactly two ways: a return, or the sweeper acting on a listing
      it made earlier. */
  lemma LeavingCompleted(ops: seq<Op>, ss: seq<State>, i: nat, id: string)
    requires IsRun(ops, ss) && i < |ops|
    requires id in ss[i].txns && ss[i].txns[id].state == Completed
    ensures ss[i + 1].txns[id].state != Completed <==>
              (ops[i].SweepUpdate? && ss[i].listed[0] == id)
              || (ops[i].Step? && var q := ss[i].requests[ops[i].req];
                                  q.intent == Return && q.pc == Opened && q.txn == id)
  {
    RunKeepsValid(ops, ss, i);
    CompletedIsCharged(ops, ss, i, id);
    if ops[i].Step? {
      StepOnTxns(ss[i], ops[i], id);
      assert RequestOk(ss[i], ss[i].requests[ops[i].req]);
    }
  }

  /** `Expired` is left by an authorization or a buy that read the quote before the sweep,
      or by a return; by nothing else. */
  lemma LeavingExpired(ops: seq<Op>, ss: seq<State>, i: nat, id: string)
    requires IsRun(ops, ss) && i < |ops|
    requires id in ss[i].txns && ss[i].txns[id].state == Expired
    ensures ss[i + 1].txns[id].state != Expired <==>
              ops[i].Step? && var q := ss[i].requests[ops[i].req];
                              q.txn == id && (q.pc == Persisted || (q.pc == Opened && q.intent in {Authorize, Return}))
  {
    RunKeepsValid(ops, ss, i);
    if ops[i].Step? { StepOnTxns(ss[i], ops[i], id); }
  }

  lemma {:induction false} CompletedIsCharged(ops: seq<Op>, ss: seq<State>, n: nat, id: string)
    requires IsRun(ops, ss) && n <= |ops| && id in ss[n].txns && ss[n].txns[id].state == Completed
    ensures Charged(ss[n], id)
  {
    ChargedAfter(ss[n - 1], ops[n - 1], id);
    if id in ss[n - 1].txns && ss[n - 1].txns[id].state == Completed {
      CompletedIsCharged(ops, ss, n - 1, id);
    } else {
      CompletionIsCharge(ops, ss, n - 1, id);
    }
  }

  // ---- what the unlocked sweeper can do ------------------------------------------

  lemma Extend(ops: seq<Op>, ss: seq<State>, op: Op) returns (ops': seq<Op>, ss': seq<State>)
    requires IsRun(ops, ss) && Enabled(ss[|ops|], op)
    ensures IsRun(ops', ss') && |ops'| == |ops| + 1 && ss' == ss + [Apply(ss[|ops|], op)]
    ensures ops' == ops + [op]
  {
    ops', ss' := ops + [op], ss + [Apply(ss[|ops|], op)];
  }

  lemma QuoteLocked(id: string, intent: Intent, q: Txn) returns (ops: seq<Op>, ss: seq<State>)
    requires q.state != Completed
    ensures IsRun(ops, ss) && |ops| == 4
    ensures var key := TransactionKey(id);
            ss[4] == State.State(0, map[id := q],
                                 Table(map[key := 0], map[0 := Ref(key, 0, Held)], {0}, 1),
                                 map[0 := Request(intent, id, Locked, Txn(Draft, 0, None, false), 0)], [], [])
  {
    AloneInside(0, TransactionKey(id));
    ops, ss := [], [Init(0)];
    ops, ss := Extend(ops, ss, Insert(id, q));
    ops, ss := Extend(ops, ss, Arrive(0, intent, id));
    ops, ss := Extend(ops, ss, Step(0, 0, true));
    ops, ss := Extend(ops, ss, Step(0, 0, true));
  }

  /** A request that has found its quote open at time 5, five ticks before the deadline. */
  lemma QuoteFoundOpen(id: string, intent: Intent) returns (ops: seq<Op>, ss: seq<State>)
    requires intent in {Authorize, Buy}
    ensures IsRun(ops, ss) && |ops| == 6
    ensures var q, key := Txn(Quoted, 500, Some(10), false), TransactionKey(id);
            ss[6] == State.State(5, map[id := q],
                                 Table(map[key := 0], map[0 := Ref(key, 0, Held)], {0}, 1),
                                 map[0 := Request(intent, id, Opened, q, 0)], [], [])
  {
    ops, ss := QuoteLocked(id, intent, Txn(Quoted, 500, Some(10), false));
    ops, ss := Extend(ops, ss, Step(0, 0, true));
    ops, ss := Extend(ops, ss, Step(0, 5, true));
  }

  /** `Completed` is not absorbing: a sweep that listed the quote just before the buy
      finished marks the paid transaction expired. */
  lemma PaidThenExpired(id: string) returns (ops: seq<Op>, ss: seq<State>)
    ensures IsRun(ops, ss) && |ops| == 11
    ensures id in ss[10].txns && ss[10].txns[id].state == Completed
    ensures ops[10] == SweepUpdate && id in ss[11].txns && ss[11].txns[id].state == Expired
  {
    hide IsRun;
    ops, ss := QuoteFoundOpen(id, Buy);
    ops, ss := Extend(ops, ss, SweepList(10, [id]));
    ops, ss := Extend(ops, ss, Step(0, 10, true));
    ops, ss := Extend(ops, ss, Step(0, 10, true));
    ops, ss := Extend(ops, ss, Step(0, 10, true));
    ops, ss := Extend(ops, ss, SweepUpdate);
  }

  /** Nor is `Expired` final: an authorization under way overwrites the sweeper's mark,
      and the elapsed quote can then be bought. */
  lemma ExpiredThenAuthorized(id: string) returns (ops: seq<Op>, ss: seq<State>)
    ensures IsRun(ops, ss) && |ops| == 9
    ensures id in ss[8].txns && ss[8].txns[id].state == Expired
    ensures id in ss[9].txns && ss[9].txns[id].state == Authorized && ss[9].txns[id].expiresAt == Some(10)
    ensures ss[9].now == 10 && Admits(Buy, ss[9].txns[id]) && !ChecksExpiry(Buy, ss[9].txns[id])
  {
    hide IsRun;
    ops, ss := QuoteFoundOpen(id, Authorize);
    ops, ss := Extend(ops, ss, SweepList(10, [id]));
    ops, ss := Extend(ops, ss, SweepUpdate);
    ops, ss := Extend(ops, ss, Step(0, 10, true));
  }
}
