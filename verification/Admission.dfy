/** Which intents get through: what the read under the lock admits, when a quote counts as
    elapsed, what each write does, and, over runs, that nothing is authorized or bought on a
    quote that was not found open. */
module Admission {
  import opened Purchase
  import opened Wrappers

  // ---- one step of a request -----------------------------------------------------

  predicate StepsAt(ops: seq<Op>, ss: seq<State>, i: nat, r: nat, pc: Pc) {
    i < |ops| && i < |ss| && ops[i].Step? && ops[i].req == r && r in ss[i].requests && ss[i].requests[r].pc == pc
  }

  /** Under the lock an intent goes on exactly on an existing transaction in a state meant for
      it: authorize on `Quoted`, buy on `Quoted` or `Authorized`, neither on a subscription's
      placeholder, negotiate on `Quoted`, return on any. Then it remembers what it read; an
      authorize or buy of a quote still has to check the deadline. */
  lemma ReadAdmits(ops: seq<Op>, ss: seq<State>, i: nat, r: nat)
    requires IsRun(ops, ss) && StepsAt(ops, ss, i, r, Locked)
    ensures var q, t := ss[i].requests[r], ss[i + 1];
            var admitted := q.txn in ss[i].txns
              && match q.intent
                 case Authorize => !ss[i].txns[q.txn].linked && ss[i].txns[q.txn].state == Quoted
                 case Buy => !ss[i].txns[q.txn].linked && ss[i].txns[q.txn].state in {Quoted, Authorized}
                 case Negotiate(_) => ss[i].txns[q.txn].state == Quoted
                 case Return => true;
            t.txns == ss[i].txns && t.charges == ss[i].charges && r in t.requests
            && (if !admitted then t.requests[r].pc == Written
                else t.requests[r].seen == ss[i].txns[q.txn]
                     && t.requests[r].pc == (if q.intent in {Authorize, Buy} && ss[i].txns[q.txn].state == Quoted
                                             then Checked else Opened))
  {
  }

  /** The check at time `at` lets the intent go on exactly when the deadline it read is absent
      or later. Otherwise it turns back, and the row, if it still is a due draft or quote,
      becomes expired. */
  lemma DeadlineDecides(ops: seq<Op>, ss: seq<State>, i: nat, r: nat)
    requires IsRun(ops, ss) && StepsAt(ops, ss, i, r, Checked)
    ensures var q, t, at := ss[i].requests[r], ss[i + 1], ops[i].at;
            r in t.requests && t.requests[r].seen == q.seen && q.txn in ss[i].txns && q.txn in t.txns
            && (if q.seen.expiresAt.None? || q.seen.expiresAt.value > at
                then t.requests[r].pc == Opened && t.txns == ss[i].txns
                else t.requests[r].pc == Written
                     && var row := ss[i].txns[q.txn];
                        t.txns == ss[i].txns[q.txn :=
                          if row.state in {Draft, Quoted} && row.expiresAt.Some? && row.expiresAt.value <= at
                          then Txn(Expired, row.total, row.expiresAt, row.linked) else row])
  {
  }

  /** What an intent that goes on writes: an authorization and a return change the state only,
      a negotiation the total only; a buy first reserves the total it read. */
  lemma OpenedWrites(ops: seq<Op>, ss: seq<State>, i: nat, r: nat)
    requires IsRun(ops, ss) && StepsAt(ops, ss, i, r, Opened)
    ensures var q, t := ss[i].requests[r], ss[i + 1];
            r in t.requests && q.txn in ss[i].txns && t.charges == ss[i].charges
            && var row := ss[i].txns[q.txn];
               match q.intent
               case Authorize =>
                 t.requests[r].pc == Written
                 && t.txns == ss[i].txns[q.txn := Txn(Authorized, row.total, row.expiresAt, row.linked)]
               case Negotiate(newTotal) =>
                 t.requests[r].pc == Written
                 && t.txns == ss[i].txns[q.txn := Txn(row.state, newTotal, row.expiresAt, row.linked)]
               case Return =>
                 t.requests[r].pc == Written
                 && t.txns == ss[i].txns[q.txn := Txn(Reversed, row.total, row.expiresAt, row.linked)]
               case Buy =>
                 t.txns == ss[i].txns
                 && (if ops[i].ok then t.requests[r].pc == Reserved && t.requests[r].reserved == q.seen.total
                     else t.requests[r].pc == Written)
  {
  }

  /** A buy that has its order completes the transaction and changes nothing else of it; one
      whose order fails changes nothing at all. */
  lemma BuyCompletes(ops: seq<Op>, ss: seq<State>, i: nat, r: nat)
    requires IsRun(ops, ss) && (StepsAt(ops, ss, i, r, Reserved) || StepsAt(ops, ss, i, r, Persisted))
    ensures var q, t := ss[i].requests[r], ss[i + 1];
            r in t.requests && q.txn in ss[i].txns
            && var row := ss[i].txns[q.txn];
               if q.pc == Reserved then
                 t.txns == ss[i].txns && t.charges == ss[i].charges
                 && t.requests[r].pc == (if ops[i].ok then Persisted else Written)
               else
                 t.requests[r].pc == Written
                 && t.txns == ss[i].txns[q.txn := Txn(Completed, row.total, row.expiresAt, row.linked)]
                 && t.charges == ss[i].charges + [Charge(q.txn, q.reserved, row.total)]
  {
  }

  /** The sweeper lists exactly the drafts and quotes whose deadline has come, and marks each
      row it listed as expired, one at a time, whatever has become of it. */
  lemma SweepMarks(ops: seq<Op>, ss: seq<State>, i: nat, id: string)
    requires IsRun(ops, ss) && i < |ops|
    ensures ops[i].SweepList? ==>
              (id in ss[i + 1].listed <==>
                 id in ss[i].txns && ss[i].txns[id].state in {Draft, Quoted}
                 && ss[i].txns[id].expiresAt.Some? && ss[i].txns[id].expiresAt.value <= ops[i].at)
    ensures ops[i].SweepUpdate? ==>
              ss[i].listed != [] && ss[i].listed[0] in ss[i].txns && ss[i + 1].listed == ss[i].listed[1..]
              && var row := ss[i].txns[ss[i].listed[0]];
                 ss[i + 1].txns ==
                   ss[i].txns[ss[i].listed[0] := Txn(Expired, row.total, row.expiresAt, row.linked)]
  {
  }

  // ---- over runs -----------------------------------------------------------------

  /** A request that has turned back, or written, writes nothing more. */
  lemma {:induction false} WrittenIsOver(ops: seq<Op>, ss: seq<State>, i: nat, j: nat, r: nat)
    requires IsRun(ops, ss) && i <= j <= |ops|
    requires r in ss[i].requests && ss[i].requests[r].pc in {Written, Unlocked, Gone}
    ensures r in ss[j].requests && ss[j].requests[r].pc in {Written, Unlocked, Gone}
  {
    if i < j {
      WrittenIsOver(ops, ss, i, j - 1, r);
      StillOver(ss[j - 1], ops[j - 1], r);
    }
  }

  lemma StillOver(s: State, op: Op, r: nat)
    requires Enabled(s, op) && r in s.requests && s.requests[r].pc in {Written, Unlocked, Gone}
    ensures r in Apply(s, op).requests && Apply(s, op).requests[r].pc in {Written, Unlocked, Gone}
  {
  }

  /** So an intent that found its quote elapsed neither authorizes nor buys, ever. */
  lemma ElapsedIsRefused(ops: seq<Op>, ss: seq<State>, i: nat, j: nat, r: nat)
    requires IsRun(ops, ss) && StepsAt(ops, ss, i, r, Checked) && i < j < |ops|
    requires var seen := ss[i].requests[r].seen; seen.expiresAt.Some? && seen.expiresAt.value <= ops[i].at
    ensures !StepsAt(ops, ss, j, r, Opened) && !StepsAt(ops, ss, j, r, Reserved) && !StepsAt(ops, ss, j, r, Persisted)
  {
    DeadlineDecides(ops, ss, i, r);
    WrittenIsOver(ops, ss, i + 1, j, r);
  }

  /** Past the check: the request has read a quote that it may act on. */
  predicate ActsOnQuote(q: Request) {
    q.intent in {Authorize, Buy} && q.seen.state == Quoted && q.pc in {Opened, Reserved, Persisted}
  }

  predicate FoundOpen(ops: seq<Op>, ss: seq<State>, i: nat, r: nat, q: Request) {
    StepsAt(ops, ss, i, r, Checked)
    && ss[i].requests[r].txn == q.txn && ss[i].requests[r].intent == q.intent && ss[i].requests[r].seen == q.seen
    && (q.seen.expiresAt.None? || ops[i].at < q.seen.expiresAt.value)
  }

  lemma ActingStep(s: State, op: Op, r: nat)
    requires Enabled(s, op) && r in Apply(s, op).requests && ActsOnQuote(Apply(s, op).requests[r])
    ensures r in s.requests
    ensures var q, t := s.requests[r], Apply(s, op).requests[r];
            t.txn == q.txn && t.intent == q.intent && t.seen == q.seen
            && (ActsOnQuote(q)
                || (op.Step? && op.req == r && q.pc == Checked
                    && (q.seen.expiresAt.None? || op.at < q.seen.expiresAt.value)))
  {
  }

  lemma {:induction false} ActingFoundOpen(ops: seq<Op>, ss: seq<State>, n: nat, r: nat) returns (i: nat)
    requires IsRun(ops, ss) && n <= |ops| && r in ss[n].requests && ActsOnQuote(ss[n].requests[r])
    ensures i < n && FoundOpen(ops, ss, i, r, ss[n].requests[r])
  {
    hide Apply, Enabled;
    ActingStep(ss[n - 1], ops[n - 1], r);
    if ActsOnQuote(ss[n - 1].requests[r]) {
      i := ActingFoundOpen(ops, ss, n - 1, r);
    } else {
      i := n - 1;
    }
  }

  /** What a request in mid-flight read was meant for its intent. */
  ghost predicate ReadFits(q: Request) {
    MidFlight(q.pc) ==>
      match q.intent
      case Authorize => !q.seen.linked && q.seen.state == Quoted
      case Buy => !q.seen.linked && q.seen.state in {Quoted, Authorized}
      case Negotiate(_) => q.seen.state == Quoted
      case Return => true
  }

  lemma StepKeepsFit(s: State, op: Op, r: nat)
    requires Enabled(s, op) && r in Apply(s, op).requests && (r in s.requests ==> ReadFits(s.requests[r]))
    ensures ReadFits(Apply(s, op).requests[r])
  {
  }

  lemma {:induction false} RunKeepsFit(ops: seq<Op>, ss: seq<State>, n: nat, r: nat)
    requires IsRun(ops, ss) && n <= |ops| && r in ss[n].requests
    ensures ReadFits(ss[n].requests[r])
  {
    if r in ss[n - 1].requests { RunKeepsFit(ops, ss, n - 1, r); }
    StepKeepsFit(ss[n - 1], ops[n - 1], r);
  }

  /** Every completion is by a buy that read an unlinked `Quoted` or `Authorized` row; and if it
      was a quote, the same request checked it before the deadline. */
  lemma PaidQuoteWasOpen(ops: seq<Op>, ss: seq<State>, j: nat, id: string) returns (i: nat)
    requires IsRun(ops, ss) && j < |ops| && CompletesAt(ss, j, id)
    ensures ops[j].Step? && ops[j].req in ss[j].requests
    ensures var q := ss[j].requests[ops[j].req];
            q.txn == id && q.intent == Buy && !q.seen.linked && q.seen.state in {Quoted, Authorized}
            && (q.seen.state == Quoted ==> i < j && FoundOpen(ops, ss, i, ops[j].req, q))
  {
    CompletionIsCharge(ops, ss, j, id);
    var r := ops[j].req;
    RunKeepsFit(ops, ss, j, r);
    i := 0;
    if ss[j].requests[r].seen.state == Quoted { i := ActingFoundOpen(ops, ss, j, r); }
  }

  /** And a transaction becomes authorized only by an authorization whose request checked the
      quote it had read before the deadline. */
  lemma AuthorizedQuoteWasOpen(ops: seq<Op>, ss: seq<State>, j: nat, id: string) returns (i: nat)
    requires IsRun(ops, ss) && j < |ops| && id in ss[j].txns && id in ss[j + 1].txns
    requires ss[j].txns[id].state != Authorized && ss[j + 1].txns[id].state == Authorized
    ensures ops[j].Step? && StepsAt(ops, ss, j, ops[j].req, Opened)
    ensures var q := ss[j].requests[ops[j].req];
            q.txn == id && q.intent == Authorize && i < j && FoundOpen(ops, ss, i, ops[j].req, q)
  {
    AuthorizingStep(ss[j], ops[j], id);
    var r := ops[j].req;
    RunKeepsFit(ops, ss, j, r);
    i := ActingFoundOpen(ops, ss, j, r);
  }

  lemma AuthorizingStep(s: State, op: Op, id: string)
    requires Enabled(s, op) && id in s.txns && s.txns[id].state != Authorized
    requires id in Apply(s, op).txns && Apply(s, op).txns[id].state == Authorized
    ensures op.Step? && op.req in s.requests
    ensures var q := s.requests[op.req]; q.pc == Opened && q.intent == Authorize && q.txn == id
  {
  }

  // ---- what should go through does -----------------------------------------------

  /** Request `r` is about to read, under the lock, a row its intent may act on, in time. */
  predicate Timely(s: State, r: nat) {
    r in s.requests && s.requests[r].pc == Locked && s.requests[r].txn in s.txns
    && var t := s.txns[s.requests[r].txn];
       !t.linked
       && (t.state == Quoted || (t.state == Authorized && s.requests[r].intent == Buy))
       && (t.state == Quoted ==> t.expiresAt.None? || s.now < t.expiresAt.value)
  }

  lemma TimelyOpens(ops: seq<Op>, ss: seq<State>, r: nat) returns (ops': seq<Op>, ss': seq<State>)
    requires IsRun(ops, ss) && Timely(ss[|ops|], r) && ss[|ops|].requests[r].intent in {Authorize, Buy}
    ensures IsRun(ops', ss') && ops <= ops' && |ops'| <= |ops| + 2
    ensures var s, t := ss[|ops|], ss'[|ops'|];
            t.now == s.now && t.txns == s.txns && t.charges == s.charges && r in t.requests
            && t.requests[r].txn == s.requests[r].txn && t.requests[r].intent == s.requests[r].intent
            && t.requests[r].pc == Opened && t.requests[r].seen == s.txns[s.requests[r].txn]
  {
    var now := ss[|ops|].now;
    ops', ss' := Extend(ops, ss, Step(r, now, true));
    if ss'[|ops'|].requests[r].pc == Checked { ops', ss' := Extend(ops', ss', Step(r, now, true)); }
  }

  /** In any run, a buy that is about to read a quote before its deadline, or an authorized
      transaction, can go on to complete it, charging its total once; and nothing but its own
      steps is needed for that. */
  lemma TimelyBuyCompletes(ops: seq<Op>, ss: seq<State>, r: nat) returns (ops': seq<Op>, ss': seq<State>)
    requires IsRun(ops, ss) && Timely(ss[|ops|], r) && ss[|ops|].requests[r].intent == Buy
    ensures IsRun(ops', ss') && ops <= ops' && |ops'| <= |ops| + 5
    ensures var s, t, id := ss[|ops|], ss'[|ops'|], ss[|ops|].requests[r].txn;
            t.now == s.now && t.txns == s.txns[id := s.txns[id].(state := Completed)]
            && t.charges == s.charges + [Charge(id, s.txns[id].total, s.txns[id].total)]
  {
    ops', ss' := TimelyOpens(ops, ss, r);
    ops', ss' := OpenedCompletes(ops', ss', r);
  }

  lemma OpenedCompletes(ops: seq<Op>, ss: seq<State>, r: nat) returns (ops': seq<Op>, ss': seq<State>)
    requires IsRun(ops, ss) && r in ss[|ops|].requests
    requires var q := ss[|ops|].requests[r]; q.intent == Buy && q.pc == Opened && q.txn in ss[|ops|].txns
    ensures IsRun(ops', ss') && ops <= ops' && |ops'| == |ops| + 3
    ensures var s, t, q := ss[|ops|], ss'[|ops'|], ss[|ops|].requests[r];
            t.now == s.now && t.txns == s.txns[q.txn := s.txns[q.txn].(state := Completed)]
            && t.charges == s.charges + [Charge(q.txn, q.seen.total, s.txns[q.txn].total)]
  {
    var now := ss[|ops|].now;
    ops', ss' := Extend(ops, ss, Step(r, now, true));
    ops', ss' := Extend(ops', ss', Step(r, now, true));
    ops', ss' := Extend(ops', ss', Step(r, now, true));
  }

  /** An authorization in the same position marks the quote authorized. */
  lemma TimelyAuthorizeWrites(ops: seq<Op>, ss: seq<State>, r: nat) returns (ops': seq<Op>, ss': seq<State>)
    requires IsRun(ops, ss) && Timely(ss[|ops|], r) && ss[|ops|].requests[r].intent == Authorize
    ensures IsRun(ops', ss') && ops <= ops' && |ops'| <= |ops| + 3
    ensures var s, t, id := ss[|ops|], ss'[|ops'|], ss[|ops|].requests[r].txn;
            t.now == s.now && t.txns == s.txns[id := s.txns[id].(state := Authorized)] && t.charges == s.charges
  {
    var now := ss[|ops|].now;
    ops', ss' := TimelyOpens(ops, ss, r);
    ops', ss' := Extend(ops', ss', Step(r, now, true));
  }
}
