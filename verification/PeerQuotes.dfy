/** Paying peer quotes: concurrent `a2a_pay` requests of one process, the unlocked expiry
    sweeper, and process crashes. A payment inserts its completed charge transaction and
    then, as a separate store access, marks the quote accepted. */
module PeerQuotes {
  import opened Locks
  import opened Sections
  import opened Wrappers

  datatype Status = Pending | Quoted | Accepted | Expired | Rejected

  /** `charge` is the index of the transaction that consumed the quote. */
  datatype Quote = Quote(status: Status, price: Option<int>, expiresAt: int, charge: Option<nat>)

  datatype Pc = Arrived | AwaitLock | Locked | Lapsed | Validated | Reserved | Inserted | Written | Unlocked | Gone

  /** `amount` is the price as read under the lock, `txn` the charge just inserted. */
  datatype Request = Request(quote: string, pc: Pc, amount: int, txn: nat)

  /** A completed charge transaction and the quote it pays. */
  datatype Charge = Charge(quote: string, amount: int)

  /** `stranded` counts, per quote, the payments a crash cut off between their charge and
      the update of the quote. */
  datatype State = State(
    now: int,
    quotes: map<string, Quote>,
    locks: Table<nat>,
    requests: map<nat, Request>,
    listed: seq<string>,
    charges: seq<Charge>,
    stranded: map<string, nat>)

  datatype Op =
    | Offer(id: string, quote: Quote)
    | Arrive(req: nat, id: string)
    | Step(req: nat, at: int, ok: bool)
    | SweepList(at: int, ids: seq<string>)
    | SweepUpdate
    | Crash

  function Init(start: int): State { State(start, map[], Empty(), map[], [], [], map[]) }

  predicate QuoteDue(q: Quote, now: int) { q.status in {Pending, Quoted} && q.expiresAt <= now }

  predicate Payable(q: Quote) { q.status == Quoted && q.price.Some? && q.price.value > 0 }

  function PlaceOf(pc: Pc): Place {
    match pc
    case Arrived => Outside
    case Gone => Outside
    case AwaitLock => Queueing
    case Unlocked => Leaving
    case _ => Inside
  }

  predicate MovesLock(pc: Pc) { pc in {Arrived, AwaitLock, Written, Unlocked} }

  function VisitOf(q: Request): Visit { Visit(PeerQuoteKey(q.quote), PlaceOf(q.pc)) }

  function VisitsOf(s: State): Visits { map r | r in s.requests :: VisitOf(s.requests[r]) }

  predicate Enabled(s: State, op: Op) {
    match op
    case Offer(id, q) => id !in s.quotes && q.status in {Pending, Quoted} && q.charge == None
    case Arrive(r, _) => r !in s.requests
    case SweepList(at, ids) =>
      at >= s.now && s.listed == []
      && (forall id <- ids :: id in s.quotes && QuoteDue(s.quotes[id], at))
      && (forall id <- s.quotes | QuoteDue(s.quotes[id], at) :: id in ids)
    case SweepUpdate => s.listed != [] && s.listed[0] in s.quotes
    case Crash => true
    case Step(r, at, _) =>
      at >= s.now && r in s.requests
      && match s.requests[r].pc
         case Gone => false
         case Locked => true
         case pc =>
           if MovesLock(pc) then CanMove(s.locks, r, VisitOf(s.requests[r])) else s.requests[r].quote in s.quotes
  }

  function WithPc(s: State, r: nat, pc: Pc): State
    requires r in s.requests
  {
    s.(requests := s.requests[r := s.requests[r].(pc := pc)])
  }

  ghost predicate Inserting(s: State, id: string) {
    exists r :: r in s.requests && s.requests[r].pc == Inserted && s.requests[r].quote == id
  }

  function StrandedOf(s: State, id: string): nat { if id in s.stranded then s.stranded[id] else 0 }

  ghost function Apply(s: State, op: Op): State
    requires Enabled(s, op)
  {
    match op
    case Offer(id, q) => s.(quotes := s.quotes[id := q])
    case Arrive(r, id) => s.(requests := s.requests[r := Request(id, Arrived, 0, 0)])
    case SweepList(at, ids) => s.(now := at, listed := ids)
    case SweepUpdate =>
      s.(quotes := s.quotes[s.listed[0] := s.quotes[s.listed[0]].(status := Expired)], listed := s.listed[1..])
    case Crash =>
      s.(locks := Empty(), listed := [],
         requests := map r | r in s.requests :: s.requests[r].(pc := Gone),
         stranded := map id | id in s.quotes :: StrandedOf(s, id) + (if Inserting(s, id) then 1 else 0))
    case Step(r, at, ok) => ApplyStep(s.(now := at), r, ok)
  }

  function ApplyStep(s: State, r: nat, ok: bool): State
    requires Enabled(s, Op.Step(r, s.now, ok))
  {
    var q := s.requests[r];
    match q.pc
    case Arrived => WithPc(s, r, AwaitLock).(locks := Move(s.locks, r, VisitOf(q)))
    case AwaitLock => WithPc(s, r, Locked).(locks := Move(s.locks, r, VisitOf(q)))
    case Locked =>
      if q.quote !in s.quotes || s.quotes[q.quote].status != Quoted then WithPc(s, r, Written)
      else if s.quotes[q.quote].expiresAt <= s.now then WithPc(s, r, Lapsed)
      else if !Payable(s.quotes[q.quote]) then WithPc(s, r, Written)
      else s.(requests := s.requests[r := q.(pc := Validated, amount := s.quotes[q.quote].price.value)])
    case Lapsed => WithPc(s, r, Written).(quotes := s.quotes[q.quote := s.quotes[q.quote].(status := Expired)])
    case Validated => WithPc(s, r, if ok then Reserved else Written)
    case Reserved =>
      s.(requests := s.requests[r := q.(pc := Inserted, txn := |s.charges|)],
         charges := s.charges + [Charge(q.quote, q.amount)])
    case Inserted =>
      WithPc(s, r, Written).(quotes := s.quotes[q.quote :=
        s.quotes[q.quote].(status := Accepted, charge := Some(q.txn))])
    case Written => WithPc(s, r, Unlocked).(locks := Move(s.locks, r, VisitOf(q)))
    case Unlocked => WithPc(s, r, Gone).(locks := Move(s.locks, r, VisitOf(q)))
    case Gone => s
  }

  function ChargesFor(cs: seq<Charge>, id: string): nat {
    if cs == [] then 0
    else ChargesFor(cs[..|cs| - 1], id) + (if cs[|cs| - 1].quote == id then 1 else 0)
  }

  ghost predicate IsRun(ops: seq<Op>, ss: seq<State>) {
    |ss| == |ops| + 1 && ss[0] == Init(ss[0].now)
    && forall i | 0 <= i < |ops| :: Enabled(ss[i], ops[i]) && ss[i + 1] == Apply(ss[i], ops[i])
  }

  // ---- invariant -----------------------------------------------------------------

  /** Every charge for a quote is the one being inserted, the one the quote records, or one
      a crash stranded. */
  ghost predicate QuoteOk(s: State, id: string) {
    (id in s.quotes ==>
       ChargesFor(s.charges, id)
         == StrandedOf(s, id) + (if Inserting(s, id) then 1 else 0) + (if s.quotes[id].charge.Some? then 1 else 0)
       && (s.quotes[id].charge.Some? ==>
             s.quotes[id].status in {Accepted, Expired} && ChargeFor(s, s.quotes[id].charge.value, id)))
    && (id !in s.quotes ==> ChargesFor(s.charges, id) == 0 && id !in s.stranded)
  }

  predicate ChargeFor(s: State, i: nat, id: string) { i < |s.charges| && s.charges[i].quote == id }

  predicate MidFlight(pc: Pc) { pc in {Lapsed, Validated, Reserved, Inserted} }

  ghost predicate RequestOk(s: State, q: Request) {
    MidFlight(q.pc) ==>
      q.quote in s.quotes && s.quotes[q.quote].charge == None
      && (q.pc != Lapsed ==> s.quotes[q.quote].price == Some(q.amount) && q.amount > 0)
      && (q.pc == Inserted ==> ChargeFor(s, q.txn, q.quote))
  }

  ghost predicate Valid(s: State) {
    Consistent(s.locks, VisitsOf(s))
    && (forall id :: QuoteOk(s, id))
    && (forall r <- s.requests :: RequestOk(s, s.requests[r]))
    && (forall id <- s.listed :: id in s.quotes)
    && (forall i | 0 <= i < |s.charges| ::
          s.charges[i].quote in s.quotes && s.quotes[s.charges[i].quote].price == Some(s.charges[i].amount))
  }

  lemma StepOnLocks(s: State, op: Op)
    requires Enabled(s, op) && op.Step?
    ensures var q, t := s.requests[op.req], Apply(s, op);
            t.requests == s.requests[op.req := t.requests[op.req]]
            && t.requests[op.req].quote == q.quote && t.stranded == s.stranded && t.listed == s.listed
            && (if MovesLock(q.pc)
                then PlaceOf(t.requests[op.req].pc) == Next(PlaceOf(q.pc))
                     && t.locks == Move(s.locks, op.req, VisitOf(q))
                else PlaceOf(t.requests[op.req].pc) == PlaceOf(q.pc) && t.locks == s.locks)
  {
  }

  lemma RequestKeepsLocks(s: State, op: Op)
    requires Consistent(s.locks, VisitsOf(s)) && Enabled(s, op) && op.Step?
    ensures Consistent(Apply(s, op).locks, VisitsOf(Apply(s, op)))
  {
    var t, r := Apply(s, op), op.req;
    StepOnLocks(s, op);
    var v := VisitsOf(s)[r];
    if MovesLock(s.requests[r].pc) {
      MoveKeeps(s.locks, VisitsOf(s), r);
      assert VisitsOf(t) == VisitsOf(s)[r := v.(place := Next(v.place))];
    } else {
      assert VisitsOf(t) == VisitsOf(s);
    }
  }

  lemma StepKeepsLocks(s: State, op: Op)
    requires Consistent(s.locks, VisitsOf(s)) && Enabled(s, op)
    ensures Consistent(Apply(s, op).locks, VisitsOf(Apply(s, op)))
  {
    var t := Apply(s, op);
    match op
    case Step(_, _, _) => RequestKeepsLocks(s, op);
    case Arrive(r, id) =>
      ArriveKeeps(s.locks, VisitsOf(s), r, PeerQuoteKey(id));
      assert VisitsOf(t) == VisitsOf(s)[r := Visit(PeerQuoteKey(id), Outside)];
    case Crash => assert forall r <- VisitsOf(t) :: VisitsOf(t)[r].place == Outside;
    case _ => assert VisitsOf(t) == VisitsOf(s);
  }

  /** How a request's step changes quotes and charges. */
  lemma StepOnQuotes(s: State, op: Op, id: string)
    requires Enabled(s, op) && op.Step?
    ensures var q, t := s.requests[op.req], Apply(s, op);
            t.quotes.Keys == s.quotes.Keys
            && t.charges == (if q.pc == Reserved then s.charges + [Charge(q.quote, q.amount)] else s.charges)
            && (id in s.quotes ==>
                  if q.quote == id && q.pc == Lapsed then t.quotes[id] == s.quotes[id].(status := Expired)
                  else if q.quote == id && q.pc == Inserted then
                    t.quotes[id] == s.quotes[id].(status := Accepted, charge := Some(q.txn))
                  else t.quotes[id] == s.quotes[id])
  {
  }

  lemma OnlyInserter(s: State, r: nat, u: nat)
    requires Valid(s) && r in s.requests && u in s.requests && s.requests[r].quote == s.requests[u].quote
    requires MidFlight(s.requests[r].pc) && MidFlight(s.requests[u].pc)
    ensures r == u
  {
    OneInside(s.locks, VisitsOf(s), r, u);
  }

  /** Who is inserting, when request `r` alone moves and no other could be inserting for its
      quote. */
  lemma InsertingMoves(s: State, t: State, r: nat, id: string)
    requires r in s.requests && r in t.requests && t.requests == s.requests[r := t.requests[r]]
    requires t.requests[r].quote == s.requests[r].quote
    requires t.requests[r].pc == Inserted <==> s.requests[r].pc == Reserved
    requires forall u <- s.requests |
               s.requests[u].pc == Inserted && s.requests[u].quote == s.requests[r].quote
               && MidFlight(s.requests[r].pc) :: u == r
    ensures var q := s.requests[r];
            Inserting(t, id)
            <==> if q.quote == id && q.pc in {Reserved, Inserted} then q.pc == Reserved else Inserting(s, id)
    ensures s.requests[r].quote == id && MidFlight(s.requests[r].pc) ==>
              (Inserting(s, id) <==> s.requests[r].pc == Inserted)
  {
    var q := s.requests[r];
    if Inserting(s, id) {
      var u :| u in s.requests && s.requests[u].pc == Inserted && s.requests[u].quote == id;
      if u != r { assert t.requests[u] == s.requests[u]; }
    }
    if q.quote == id && q.pc == Reserved { assert t.requests[r].pc == Inserted; }
    if q.quote == id && q.pc == Inserted { assert Inserting(s, id); }
  }

  lemma PcAfterStep(s: State, op: Op)
    requires Enabled(s, op) && op.Step?
    ensures Apply(s, op).requests[op.req].pc == Inserted <==> s.requests[op.req].pc == Reserved
  {
  }

  lemma InsertingAfterStep(s: State, op: Op, id: string)
    requires Valid(s) && Enabled(s, op) && op.Step?
    ensures var q := s.requests[op.req];
            Inserting(Apply(s, op), id)
            <==> if q.quote == id && q.pc in {Reserved, Inserted} then q.pc == Reserved else Inserting(s, id)
    ensures s.requests[op.req].quote == id && MidFlight(s.requests[op.req].pc) ==>
              (Inserting(s, id) <==> s.requests[op.req].pc == Inserted)
  {
    var q := s.requests[op.req];
    StepOnLocks(s, op);
    PcAfterStep(s, op);
    forall u | u in s.requests && s.requests[u].pc == Inserted && s.requests[u].quote == q.quote && MidFlight(q.pc)
      ensures u == op.req
    {
      OnlyInserter(s, op.req, u);
    }
    InsertingMoves(s, Apply(s, op), op.req, id);
  }

  lemma StepKeepsQuote(s: State, op: Op, id: string)
    requires Valid(s) && Enabled(s, op) && op.Step?
    ensures QuoteOk(Apply(s, op), id)
  {
    var q := s.requests[op.req];
    assert RequestOk(s, q) && QuoteOk(s, id);
    StepOnLocks(s, op);
    StepOnQuotes(s, op, id);
    InsertingAfterStep(s, op, id);
    if q.pc == Reserved {
      assert Apply(s, op).charges[..|s.charges|] == s.charges;
    }
  }

  lemma OtherKeepsQuote(s: State, op: Op, id: string)
    requires Valid(s) && Enabled(s, op) && !op.Step?
    ensures QuoteOk(Apply(s, op), id)
  {
    var t := Apply(s, op);
    assert QuoteOk(s, id);
    if op.Crash? {
      assert !Inserting(t, id);
    } else {
      assert Inserting(t, id) ==> Inserting(s, id) by {
        if Inserting(t, id) {
          var r :| r in t.requests && t.requests[r].pc == Inserted && t.requests[r].quote == id;
          assert r in s.requests && s.requests[r] == t.requests[r];
        }
      }
      assert Inserting(s, id) ==> Inserting(t, id) by {
        if Inserting(s, id) {
          var r :| r in s.requests && s.requests[r].pc == Inserted && s.requests[r].quote == id;
          assert r in t.requests && s.requests[r] == t.requests[r];
        }
      }
    }
  }

  lemma StepKeepsOther(s: State, op: Op, u: nat)
    requires Valid(s) && Enabled(s, op) && op.Step? && u in s.requests && u != op.req
    ensures RequestOk(Apply(s, op), s.requests[u])
  {
    assert RequestOk(s, s.requests[u]);
    StepOnQuotes(s, op, s.requests[u].quote);
    if MidFlight(s.requests[u].pc) && MidFlight(s.requests[op.req].pc)
       && s.requests[u].quote == s.requests[op.req].quote {
      OnlyInserter(s, op.req, u);
    }
  }

  lemma StepKeepsOwn(s: State, op: Op)
    requires Valid(s) && Enabled(s, op) && op.Step?
    ensures op.req in Apply(s, op).requests && RequestOk(Apply(s, op), Apply(s, op).requests[op.req])
  {
    assert RequestOk(s, s.requests[op.req]) && QuoteOk(s, s.requests[op.req].quote);
  }

  lemma OtherKeepsRequest(s: State, op: Op, u: nat)
    requires Valid(s) && Enabled(s, op) && !op.Step? && u in Apply(s, op).requests
    ensures RequestOk(Apply(s, op), Apply(s, op).requests[u])
  {
    if u in s.requests { assert RequestOk(s, s.requests[u]); }
  }

  lemma StepKeepsRequest(s: State, op: Op, u: nat)
    requires Valid(s) && Enabled(s, op) && u in Apply(s, op).requests
    ensures RequestOk(Apply(s, op), Apply(s, op).requests[u])
  {
    if !op.Step? {
      OtherKeepsRequest(s, op, u);
    } else if u == op.req {
      StepKeepsOwn(s, op);
    } else {
      StepOnLocks(s, op);
      StepKeepsOther(s, op, u);
    }
  }

  lemma StepKeepsPrices(s: State, op: Op, i: nat)
    requires Valid(s) && Enabled(s, op) && i < |Apply(s, op).charges|
    ensures var c := Apply(s, op).charges[i];
            c.quote in Apply(s, op).quotes && Apply(s, op).quotes[c.quote].price == Some(c.amount)
  {
    if op.Step? {
      var c := if i < |s.charges| then s.charges[i] else Charge(s.requests[op.req].quote, s.requests[op.req].amount);
      StepOnQuotes(s, op, c.quote);
      assert RequestOk(s, s.requests[op.req]);
    }
  }

  lemma StepKeepsValid(s: State, op: Op)
    requires Valid(s) && Enabled(s, op)
    ensures Valid(Apply(s, op))
  {
    var t := Apply(s, op);
    StepKeepsLocks(s, op);
    forall id ensures QuoteOk(t, id) {
      if op.Step? { StepKeepsQuote(s, op, id); } else { OtherKeepsQuote(s, op, id); }
    }
    forall u | u in t.requests ensures RequestOk(t, t.requests[u]) {
      StepKeepsRequest(s, op, u);
    }
    forall i | 0 <= i < |t.charges|
      ensures t.charges[i].quote in t.quotes && t.quotes[t.charges[i].quote].price == Some(t.charges[i].amount)
    {
      StepKeepsPrices(s, op, i);
    }
    if op.Step? { StepOnLocks(s, op); StepOnQuotes(s, op, ""); }
  }

  lemma {:induction false} RunKeepsValid(ops: seq<Op>, ss: seq<State>, n: nat)
    requires IsRun(ops, ss) && n <= |ops|
    ensures Valid(ss[n])
  {
    if n > 0 {
      RunKeepsValid(ops, ss, n - 1);
      StepKeepsValid(ss[n - 1], ops[n - 1]);
    }
  }

  // ---- a quote is paid once ------------------------------------------------------

  /** Charges for a quote are accounted for exactly: the one the quote records or is about
      to record, plus those a crash stranded. Each is for the quoted price. */
  lemma ChargesAccounted(ops: seq<Op>, ss: seq<State>, n: nat, id: string)
    requires IsRun(ops, ss) && n <= |ops|
    ensures id in ss[n].quotes ==>
              ChargesFor(ss[n].charges, id)
                == StrandedOf(ss[n], id) + (if Inserting(ss[n], id) then 1 else 0)
                   + (if ss[n].quotes[id].charge.Some? then 1 else 0)
    ensures ChargesFor(ss[n].charges, id) <= StrandedOf(ss[n], id) + 1
    ensures id in ss[n].quotes && ss[n].quotes[id].charge.Some? ==>
              ChargeFor(ss[n], ss[n].quotes[id].charge.value, id)
    ensures forall i | 0 <= i < |ss[n].charges| && ss[n].charges[i].quote == id ::
              id in ss[n].quotes && ss[n].quotes[id].price == Some(ss[n].charges[i].amount)
  {
    RunKeepsValid(ops, ss, n);
    var s := ss[n];
    assert QuoteOk(s, id);
    if Inserting(s, id) {
      var r :| r in s.requests && s.requests[r].pc == Inserted && s.requests[r].quote == id;
      assert RequestOk(s, s.requests[r]);
    }
  }

  /** No crash hits a payment between its charge and the quote's update. */
  ghost predicate NoCrashMidPayment(ops: seq<Op>, ss: seq<State>)
    requires IsRun(ops, ss)
  {
    forall i, id | 0 <= i < |ops| && ops[i].Crash? :: !Inserting(ss[i], id)
  }

  lemma {:induction false} NothingStranded(ops: seq<Op>, ss: seq<State>, n: nat, id: string)
    requires IsRun(ops, ss) && n <= |ops| && NoCrashMidPayment(ops, ss)
    ensures StrandedOf(ss[n], id) == 0
  {
    if n > 0 {
      NothingStranded(ops, ss, n - 1, id);
      if ops[n - 1].Crash? { assert !Inserting(ss[n - 1], id); }
      if ops[n - 1].Step? { StepOnLocks(ss[n - 1], ops[n - 1]); }
    }
  }

  /** So in a process that does not die in that gap, a peer quote yields at most one
      charge, for its price, however payments and sweeps interleave. */
  lemma PaidAtMostOnce(ops: seq<Op>, ss: seq<State>, n: nat, id: string)
    requires IsRun(ops, ss) && n <= |ops| && NoCrashMidPayment(ops, ss)
    ensures ChargesFor(ss[n].charges, id) <= 1
  {
    NothingStranded(ops, ss, n, id);
    ChargesAccounted(ops, ss, n, id);
  }

  lemma Extend(ops: seq<Op>, ss: seq<State>, op: Op) returns (ops': seq<Op>, ss': seq<State>)
    requires IsRun(ops, ss) && Enabled(ss[|ops|], op)
    ensures IsRun(ops', ss') && ops' == ops + [op] && ss' == ss + [Apply(ss[|ops|], op)]
  {
    var t := Apply(ss[|ops|], op);
    ops', ss' := ops + [op], ss + [t];
    forall i | 0 <= i < |ops'| ensures Enabled(ss'[i], ops'[i]) && ss'[i + 1] == Apply(ss'[i], ops'[i]) {
      if i < |ops| { assert ss'[i] == ss[i] && ss'[i + 1] == ss[i + 1] && ops'[i] == ops[i]; }
    }
  }

  lemma EnterSection(ops: seq<Op>, ss: seq<State>, id: string, r: nat) returns (ops': seq<Op>, ss': seq<State>)
    requires IsRun(ops, ss)
    requires ss[|ops|].locks == Empty() && r !in ss[|ops|].requests
    ensures IsRun(ops', ss') && ops <= ops' && ss <= ss'
    ensures var s, t := ss[|ops|], ss'[|ops'|];
            t == s.(requests := s.requests[r := Request(id, Locked, 0, 0)], locks := t.locks)
  {
    var now := ss[|ops|].now;
    AloneInside(r, PeerQuoteKey(id));
    ops', ss' := Extend(ops, ss, Arrive(r, id));
    ops', ss' := Extend(ops', ss', Step(r, now, true));
    ops', ss' := Extend(ops', ss', Step(r, now, true));
  }

  /** Whatever happened before, once a crash has emptied the lock table a quote that is still
      payable and unexpired can be charged its price (again): some continuation does. */
  lemma PayableIsCharged(ops: seq<Op>, ss: seq<State>, id: string, r: nat)
    returns (ops': seq<Op>, ss': seq<State>)
    requires IsRun(ops, ss) && ops != [] && ops[|ops| - 1].Crash?
    requires var s := ss[|ops|];
             r !in s.requests && id in s.quotes && Payable(s.quotes[id]) && s.quotes[id].expiresAt > s.now
    ensures IsRun(ops', ss') && ops <= ops' && ss <= ss'
    ensures var s, t := ss[|ops|], ss'[|ops'|];
            t.now == s.now && t.quotes == s.quotes && t.stranded == s.stranded
            && r in t.requests && t.requests[r].pc == Inserted && t.requests[r].quote == id
            && t.charges == s.charges + [Charge(id, s.quotes[id].price.value)]
            && t.requests.Keys == s.requests.Keys + {r}
  {
    assert ss[|ops|] == Apply(ss[|ops| - 1], ops[|ops| - 1]);
    ops', ss' := PayUntilInserted(ops, ss, id, r);
  }

  /** The gap is real: a crash in it strands a charge and leaves the quote payable, and
      until the quote expires some continuation charges it a second time. */
  lemma CrashMidPaymentChargesTwice(ops: seq<Op>, ss: seq<State>, id: string, r: nat)
    returns (ops': seq<Op>, ss': seq<State>)
    requires IsRun(ops, ss) && Inserting(ss[|ops|], id) && r !in ss[|ops|].requests
    requires var s := ss[|ops|]; id in s.quotes && Payable(s.quotes[id]) && s.quotes[id].expiresAt > s.now
    ensures IsRun(ops', ss') && ops + [Crash] <= ops'
    ensures ChargesFor(ss'[|ops'|].charges, id) == ChargesFor(ss[|ops|].charges, id) + 1 >= 2
  {
    ops', ss' := Extend(ops, ss, Crash);
    ops', ss' := PayableIsCharged(ops', ss', id, r);
    var s, t := ss[|ops|], ss'[|ops'|];
    assert t.charges[..|t.charges| - 1] == s.charges;
    ChargesAccounted(ops, ss, |ops|, id);
  }

  /** Such a state is reachable for every price. */
  lemma PaymentInGap(id: string, price: int) returns (ops: seq<Op>, ss: seq<State>)
    requires price > 0
    ensures IsRun(ops, ss) && Inserting(ss[|ops|], id)
    ensures var s := ss[|ops|]; id in s.quotes && Payable(s.quotes[id]) && s.quotes[id].expiresAt > s.now
  {
    ops, ss := [], [Init(0)];
    ops, ss := Extend(ops, ss, Offer(id, Quote(Quoted, Some(price), 100, None)));
    ops, ss := PayUntilInserted(ops, ss, id, 0);
  }

  lemma PayUntilInserted(ops: seq<Op>, ss: seq<State>, id: string, r: nat)
    returns (ops': seq<Op>, ss': seq<State>)
    requires IsRun(ops, ss)
    requires var s := ss[|ops|];
             s.locks == Empty() && r !in s.requests
             && id in s.quotes && Payable(s.quotes[id]) && s.quotes[id].expiresAt > s.now
    ensures IsRun(ops', ss') && ops <= ops' && ss <= ss'
    ensures var s, t := ss[|ops|], ss'[|ops'|];
            t.now == s.now && t.quotes == s.quotes && t.stranded == s.stranded
            && r in t.requests && t.requests[r].pc == Inserted && t.requests[r].quote == id
            && t.charges == s.charges + [Charge(id, s.quotes[id].price.value)]
            && t.requests.Keys == s.requests.Keys + {r}
  {
    var now := ss[|ops|].now;
    hide IsRun;
    ops', ss' := EnterSection(ops, ss, id, r);
    ops', ss' := Extend(ops', ss', Step(r, now, true));
    ops', ss' := Extend(ops', ss', Step(r, now, true));
    ops', ss' := Extend(ops', ss', Step(r, now, true));
  }

  // ---- what a payment lets through -----------------------------------------------

  predicate StepsAt(ops: seq<Op>, ss: seq<State>, i: nat, r: nat, pc: Pc) {
    i < |ops| && i < |ss| && ops[i].Step? && ops[i].req == r && r in ss[i].requests && ss[i].requests[r].pc == pc
  }

  /** Under the lock a payment goes on exactly on a `Quoted` quote whose deadline is later and
      whose price is positive, for that price; an elapsed one is to be marked expired, anything
      else is refused, and nothing is written yet. */
  lemma PaymentChecks(ops: seq<Op>, ss: seq<State>, i: nat, r: nat)
    requires IsRun(ops, ss) && StepsAt(ops, ss, i, r, Locked)
    ensures var q, t := ss[i].requests[r], ss[i + 1];
            var known := q.quote in ss[i].quotes && ss[i].quotes[q.quote].status == Quoted;
            t.quotes == ss[i].quotes && t.charges == ss[i].charges && r in t.requests && t.requests[r].quote == q.quote
            && (t.requests[r].pc == Lapsed <==> known && ss[i].quotes[q.quote].expiresAt <= ops[i].at)
            && (t.requests[r].pc == Validated <==>
                  known && ss[i].quotes[q.quote].expiresAt > ops[i].at
                  && ss[i].quotes[q.quote].price.Some? && ss[i].quotes[q.quote].price.value > 0)
            && (t.requests[r].pc == Validated ==> ss[i].quotes[q.quote].price == Some(t.requests[r].amount))
            && t.requests[r].pc in {Lapsed, Validated, Written}
  {
  }

  /** And then: an elapsed quote becomes expired, a payment whose spend is refused ends, one
      that is reserved inserts its charge, and the charge is recorded on an accepted quote. */
  lemma PaymentWrites(ops: seq<Op>, ss: seq<State>, i: nat, r: nat)
    requires IsRun(ops, ss) && i < |ops| && ops[i].Step? && ops[i].req == r && r in ss[i].requests
    requires ss[i].requests[r].pc in {Lapsed, Validated, Reserved, Inserted}
    ensures var q, t := ss[i].requests[r], ss[i + 1];
            r in t.requests && q.quote in ss[i].quotes
            && var row := ss[i].quotes[q.quote];
               match q.pc
               case Lapsed =>
                 t.requests[r].pc == Written && t.charges == ss[i].charges
                 && t.quotes == ss[i].quotes[q.quote := Quote(Expired, row.price, row.expiresAt, row.charge)]
               case Validated =>
                 t.requests[r].pc == (if ops[i].ok then Reserved else Written)
                 && t.charges == ss[i].charges && t.quotes == ss[i].quotes
               case Reserved =>
                 t.requests[r].pc == Inserted && t.requests[r].txn == |ss[i].charges| && t.quotes == ss[i].quotes
                 && t.charges == ss[i].charges + [Charge(q.quote, q.amount)]
               case _ =>
                 t.requests[r].pc == Written && t.charges == ss[i].charges
                 && t.quotes == ss[i].quotes[q.quote := Quote(Accepted, row.price, row.expiresAt, Some(q.txn))]
  {
  }

  /** The sweeper lists exactly the pending and quoted ones whose time has come, and marks each
      one it listed as expired, even one that has been paid meanwhile. */
  lemma SweepMarks(ops: seq<Op>, ss: seq<State>, i: nat, id: string)
    requires IsRun(ops, ss) && i < |ops|
    ensures ops[i].SweepList? ==>
              (id in ss[i + 1].listed <==>
                 id in ss[i].quotes && ss[i].quotes[id].status in {Pending, Quoted}
                 && ss[i].quotes[id].expiresAt <= ops[i].at)
    ensures ops[i].SweepUpdate? ==>
              ss[i].listed != [] && ss[i].listed[0] in ss[i].quotes && ss[i + 1].listed == ss[i].listed[1..]
              && var row := ss[i].quotes[ss[i].listed[0]];
                 ss[i + 1].quotes ==
                   ss[i].quotes[ss[i].listed[0] := Quote(Expired, row.price, row.expiresAt, row.charge)]
  {
  }

  predicate Paying(q: Request) { q.pc in {Validated, Reserved, Inserted} }

  predicate FoundOpen(ops: seq<Op>, ss: seq<State>, i: nat, r: nat, q: Request) {
    StepsAt(ops, ss, i, r, Locked) && ss[i].requests[r].quote == q.quote
    && q.quote in ss[i].quotes && ss[i].quotes[q.quote].status == Quoted
    && ops[i].at < ss[i].quotes[q.quote].expiresAt && ss[i].quotes[q.quote].price == Some(q.amount) && q.amount > 0
  }

  lemma PayingStep(s: State, op: Op, r: nat)
    requires Enabled(s, op) && r in Apply(s, op).requests && Paying(Apply(s, op).requests[r])
    ensures r in s.requests
    ensures var q, t := s.requests[r], Apply(s, op).requests[r];
            t.quote == q.quote
            && (if Paying(q) then t.amount == q.amount
                else op.Step? && op.req == r && q.pc == Locked
                     && q.quote in s.quotes && s.quotes[q.quote].status == Quoted
                     && op.at < s.quotes[q.quote].expiresAt
                     && s.quotes[q.quote].price == Some(t.amount) && t.amount > 0)
  {
  }

  lemma {:induction false} PayingFoundOpen(ops: seq<Op>, ss: seq<State>, n: nat, r: nat) returns (i: nat)
    requires IsRun(ops, ss) && n <= |ops| && r in ss[n].requests && Paying(ss[n].requests[r])
    ensures i < n && FoundOpen(ops, ss, i, r, ss[n].requests[r])
  {
    hide Apply, Enabled;
    PayingStep(ss[n - 1], ops[n - 1], r);
    if Paying(ss[n - 1].requests[r]) {
      i := PayingFoundOpen(ops, ss, n - 1, r);
    } else {
      i := n - 1;
    }
  }

  /** Every charge for a peer quote was preceded by a check of the same request that found the
      quote `Quoted`, unexpired, and at the price then charged. */
  lemma OnlyOpenQuotesArePaid(ops: seq<Op>, ss: seq<State>, j: nat) returns (r: nat, i: nat)
    requires IsRun(ops, ss) && j < |ops| && |ss[j + 1].charges| > |ss[j].charges|
    ensures StepsAt(ops, ss, j, r, Reserved) && i < j && FoundOpen(ops, ss, i, r, ss[j].requests[r])
    ensures ss[j + 1].charges == ss[j].charges + [Charge(ss[j].requests[r].quote, ss[j].requests[r].amount)]
  {
    ChargingStep(ss[j], ops[j]);
    r := ops[j].req;
    i := PayingFoundOpen(ops, ss, j, r);
  }

  lemma ChargingStep(s: State, op: Op)
    requires Enabled(s, op) && |Apply(s, op).charges| > |s.charges|
    ensures op.Step? && op.req in s.requests && s.requests[op.req].pc == Reserved
    ensures Apply(s, op).charges == s.charges + [Charge(s.requests[op.req].quote, s.requests[op.req].amount)]
  {
  }
}
