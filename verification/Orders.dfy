/** The orders a buy persists with the commerce engine. The order exists before the
    transaction is marked completed, as a store access of its own, so a crash in between
    leaves an order that no transaction records. */
module Orders {
  import Locks
  import opened Purchase
  import opened Sections
  import opened Wrappers

  /** A buy of `id` has persisted its order and not yet completed the transaction. */
  ghost predicate Persisting(s: State, id: string) { exists r :: PersistingAs(s, id, r) }

  predicate PersistingAs(s: State, id: string, r: nat) {
    r in s.requests && s.requests[r].pc == Persisted && s.requests[r].txn == id
  }

  /** The step persists an order for `id`. */
  predicate PersistsAt(s: State, op: Op, id: string) {
    op.Step? && op.req in s.requests && op.ok && s.requests[op.req].pc == Reserved && s.requests[op.req].txn == id
  }

  /** The orders persisted for `id` by the first `n` operations. */
  function OrdersFor(ops: seq<Op>, ss: seq<State>, n: nat, id: string): nat
    requires n <= |ops| < |ss|
  {
    if n == 0 then 0
    else OrdersFor(ops, ss, n - 1, id) + (if PersistsAt(ss[n - 1], ops[n - 1], id) then 1 else 0)
  }

  /** The crashes that hit a buy of `id` between its order and its completion. */
  ghost function Stranded(ops: seq<Op>, ss: seq<State>, n: nat, id: string): nat
    requires n <= |ops| < |ss|
  {
    if n == 0 then 0
    else Stranded(ops, ss, n - 1, id) + (if ops[n - 1].Crash? && Persisting(ss[n - 1], id) then 1 else 0)
  }

  function Count(b: bool): nat { if b then 1 else 0 }

  // ---- one step ------------------------------------------------------------------

  lemma OnePersisting(s: State, id: string, r: nat, u: nat)
    requires Valid(s) && PersistingAs(s, id, r) && u in s.requests && s.requests[u].txn == id
    requires MidFlight(s.requests[u].pc)
    ensures r == u
  {
    OneInside(s.locks, VisitsOf(s), r, u);
  }

  lemma PcAfterStep(s: State, op: Op)
    requires Enabled(s, op) && op.Step?
    ensures Apply(s, op).requests[op.req].pc == Persisted <==> s.requests[op.req].pc == Reserved && op.ok
  {
  }

  /** A step of another request, or of this one elsewhere, leaves who is persisting alone. */
  lemma StepOnPersisting(s: State, op: Op, id: string)
    requires Valid(s) && Enabled(s, op) && op.Step?
    ensures var q := s.requests[op.req];
            Persisting(Apply(s, op), id)
            <==> if q.txn == id && q.pc in {Reserved, Persisted} then PersistsAt(s, op, id) else Persisting(s, id)
    ensures s.requests[op.req].txn == id && s.requests[op.req].pc in {Reserved, Persisted} ==>
              (Persisting(s, id) <==> s.requests[op.req].pc == Persisted)
  {
    StepOnLocks(s, op);
    PcAfterStep(s, op);
    hide Purchase.Apply, Valid;
    var q, t, r := s.requests[op.req], Apply(s, op), op.req;
    if Persisting(s, id) {
      var u :| PersistingAs(s, id, u);
      if q.txn == id && MidFlight(q.pc) { OnePersisting(s, id, u, r); }
      if u != r { assert PersistingAs(t, id, u); }
    }
    if Persisting(t, id) {
      var u :| PersistingAs(t, id, u);
      if u != r {
        assert PersistingAs(s, id, u);
        if q.txn == id && MidFlight(q.pc) { OnePersisting(s, id, u, r); }
      }
    }
    if q.txn == id && q.pc == Persisted { assert PersistingAs(s, id, r); }
    if PersistsAt(s, op, id) { assert PersistingAs(t, id, r); }
  }

  lemma OtherOnPersisting(s: State, op: Op, id: string)
    requires Enabled(s, op) && !op.Step?
    ensures Persisting(Apply(s, op), id) <==> Persisting(s, id) && !op.Crash?
  {
    var t := Apply(s, op);
    if Persisting(s, id) && !op.Crash? {
      var u :| PersistingAs(s, id, u);
      assert PersistingAs(t, id, u);
    }
    if Persisting(t, id) {
      var u :| PersistingAs(t, id, u);
      assert PersistingAs(s, id, u);
    }
  }

  /** A transaction whose order has just been persisted is not charged yet. */
  lemma PersistingIsUncharged(s: State, id: string)
    requires Valid(s) && Persisting(s, id)
    ensures !Charged(s, id)
  {
    var r :| PersistingAs(s, id, r);
    assert RequestOk(s, s.requests[r]);
  }

  lemma StepAccounts(s: State, op: Op, id: string)
    requires Valid(s) && Enabled(s, op)
    ensures var t := Apply(s, op);
            Count(PersistsAt(s, op, id)) + Count(Persisting(s, id)) + Count(Charged(s, id))
              == Count(op.Crash? && Persisting(s, id)) + Count(Persisting(t, id)) + Count(Charged(t, id))
  {
    ChargedAfter(s, op, id);
    if op.Step? { StepOnPersisting(s, op, id); } else { OtherOnPersisting(s, op, id); }
    if Persisting(s, id) { PersistingIsUncharged(s, id); }
  }

  // ---- over runs -----------------------------------------------------------------

  /** The orders persisted for a transaction are exactly those a crash stranded, the one in
      flight, and the one its completion records. */
  lemma {:induction false} OrdersAccounted(ops: seq<Op>, ss: seq<State>, n: nat, id: string)
    requires IsRun(ops, ss) && n <= |ops|
    ensures OrdersFor(ops, ss, n, id)
         == Stranded(ops, ss, n, id) + Count(Persisting(ss[n], id)) + Count(Charged(ss[n], id))
  {
    if n > 0 {
      OrdersAccounted(ops, ss, n - 1, id);
      RunKeepsValid(ops, ss, n - 1);
      StepAccounts(ss[n - 1], ops[n - 1], id);
    }
  }

  /** So a transaction has at most one order more than crashes stranded: one, without such
      a crash. */
  lemma OneOrderUnlessStranded(ops: seq<Op>, ss: seq<State>, n: nat, id: string)
    requires IsRun(ops, ss) && n <= |ops|
    ensures OrdersFor(ops, ss, n, id) <= Stranded(ops, ss, n, id) + 1
    ensures (forall k | 0 <= k < n && ops[k].Crash? :: !Persisting(ss[k], id)) ==> OrdersFor(ops, ss, n, id) <= 1
  {
    RunKeepsValid(ops, ss, n);
    OrdersAccounted(ops, ss, n, id);
    if Persisting(ss[n], id) { PersistingIsUncharged(ss[n], id); }
    if forall k | 0 <= k < n && ops[k].Crash? :: !Persisting(ss[k], id) { NothingStranded(ops, ss, n, id); }
  }

  lemma {:induction false} NothingStranded(ops: seq<Op>, ss: seq<State>, n: nat, id: string)
    requires IsRun(ops, ss) && n <= |ops|
    requires forall k | 0 <= k < n && ops[k].Crash? :: !Persisting(ss[k], id)
    ensures Stranded(ops, ss, n, id) == 0
  {
    if n > 0 { NothingStranded(ops, ss, n - 1, id); }
  }

  // ---- the gap is real -----------------------------------------------------------

  /** The next buy finds the transaction open. */
  predicate Open(s: State, id: string) {
    id in s.txns && Admits(Buy, s.txns[id])
    && (s.txns[id].state == Quoted && s.txns[id].expiresAt.Some? ==> s.txns[id].expiresAt.value > s.now)
  }

  lemma {:induction false} OrdersOfPrefix(ops: seq<Op>, ss: seq<State>, more: seq<Op>, states: seq<State>,
        n: nat, id: string)
    requires n <= |ops| < |ss| && |more| < |states| && ops <= more && ss <= states
    ensures OrdersFor(more, states, n, id) == OrdersFor(ops, ss, n, id)
  {
    if n > 0 { OrdersOfPrefix(ops, ss, more, states, n - 1, id); }
  }

  /** One more operation, with its state and its effect on the count. */
  lemma Continue(ops: seq<Op>, ss: seq<State>, op: Op, id: string) returns (ops': seq<Op>, ss': seq<State>)
    requires IsRun(ops, ss) && Purchase.Enabled(ss[|ops|], op)
    ensures IsRun(ops', ss') && ops' == ops + [op] && ss' == ss + [Purchase.Apply(ss[|ops|], op)]
    ensures OrdersFor(ops', ss', |ops'|, id) == OrdersFor(ops, ss, |ops|, id) + Count(PersistsAt(ss[|ops|], op, id))
  {
    ops', ss' := Extend(ops, ss, op);
    OrdersOfPrefix(ops, ss, ops', ss', |ops|, id);
  }

  /** On an empty lock table a new buy gets as far as the lock. */
  lemma BuyArrives(ops: seq<Op>, ss: seq<State>, id: string, r: nat) returns (ops': seq<Op>, ss': seq<State>)
    requires IsRun(ops, ss) && ss[|ops|].locks == Locks.Empty() && r !in ss[|ops|].requests
    ensures IsRun(ops', ss') && ops <= ops' && OrdersFor(ops', ss', |ops'|, id) == OrdersFor(ops, ss, |ops|, id)
    ensures var s, t := ss[|ops|], ss'[|ops'|];
            t.now == s.now && t.txns == s.txns
            && r in t.requests && t.requests[r].intent == Buy && t.requests[r].txn == id && t.requests[r].pc == Locked
  {
    var now := ss[|ops|].now;
    AloneInside(r, Locks.TransactionKey(id));
    ops', ss' := Continue(ops, ss, Arrive(r, Buy, id), id);
    ops', ss' := Continue(ops', ss', Step(r, now, true), id);
    ops', ss' := Continue(ops', ss', Step(r, now, true), id);
  }

  /** The buy has read its transaction and will find it open. */
  predicate ReadOpen(s: State, id: string, r: nat) {
    r in s.requests && s.requests[r].intent == Buy && s.requests[r].txn == id && s.requests[r].pc in {Checked, Opened}
    && (s.requests[r].pc == Checked && s.requests[r].seen.expiresAt.Some? ==>
          s.requests[r].seen.expiresAt.value > s.now)
  }

  lemma BuyReads(ops: seq<Op>, ss: seq<State>, id: string, r: nat) returns (ops': seq<Op>, ss': seq<State>)
    requires IsRun(ops, ss) && Open(ss[|ops|], id)
    requires var s := ss[|ops|];
             r in s.requests && s.requests[r].intent == Buy && s.requests[r].txn == id && s.requests[r].pc == Locked
    ensures IsRun(ops', ss') && ops <= ops' && OrdersFor(ops', ss', |ops'|, id) == OrdersFor(ops, ss, |ops|, id)
    ensures var s, t := ss[|ops|], ss'[|ops'|]; t.now == s.now && t.txns == s.txns && ReadOpen(t, id, r)
  {
    ops', ss' := Continue(ops, ss, Step(r, ss[|ops|].now, true), id);
  }

  lemma BuyReserves(ops: seq<Op>, ss: seq<State>, id: string, r: nat) returns (ops': seq<Op>, ss': seq<State>)
    requires IsRun(ops, ss) && id in ss[|ops|].txns && ReadOpen(ss[|ops|], id, r)
    ensures IsRun(ops', ss') && ops <= ops' && OrdersFor(ops', ss', |ops'|, id) == OrdersFor(ops, ss, |ops|, id)
    ensures var s, t := ss[|ops|], ss'[|ops'|];
            t.now == s.now && t.txns == s.txns
            && r in t.requests && t.requests[r].txn == id && t.requests[r].pc == Reserved
  {
    var now := ss[|ops|].now;
    ops', ss' := ops, ss;
    if ss[|ops|].requests[r].pc == Checked {
      ops', ss' := Continue(ops, ss, Step(r, now, true), id);
    }
    ops', ss' := Continue(ops', ss', Step(r, now, true), id);
  }

  /** Whatever happened before, once a crash has emptied the lock table an open transaction
      can have (another) order persisted for it: some continuation does. */
  lemma OpenGetsOrder(ops: seq<Op>, ss: seq<State>, id: string, r: nat) returns (ops': seq<Op>, ss': seq<State>)
    requires IsRun(ops, ss) && ops != [] && ops[|ops| - 1].Crash?
    requires Open(ss[|ops|], id) && r !in ss[|ops|].requests
    ensures IsRun(ops', ss') && ops <= ops' && Persisting(ss'[|ops'|], id)
    ensures OrdersFor(ops', ss', |ops'|, id) == OrdersFor(ops, ss, |ops|, id) + 1
  {
    assert ss[|ops|].locks == Locks.Empty() by { assert ss[|ops|] == Purchase.Apply(ss[|ops| - 1], ops[|ops| - 1]); }
    hide IsRun, Purchase.Apply, OrdersFor, Admits;
    ops', ss' := BuyArrives(ops, ss, id, r);
    ops', ss' := BuyReads(ops', ss', id, r);
    ops', ss' := BuyReserves(ops', ss', id, r);
    ops', ss' := BuyPersists(ops', ss', id, r);
  }

  lemma BuyPersists(ops: seq<Op>, ss: seq<State>, id: string, r: nat) returns (ops': seq<Op>, ss': seq<State>)
    requires IsRun(ops, ss) && id in ss[|ops|].txns
    requires var s := ss[|ops|]; r in s.requests && s.requests[r].txn == id && s.requests[r].pc == Reserved
    ensures IsRun(ops', ss') && ops <= ops' && Persisting(ss'[|ops'|], id)
    ensures OrdersFor(ops', ss', |ops'|, id) == OrdersFor(ops, ss, |ops|, id) + 1
  {
    ops', ss' := Continue(ops, ss, Step(r, ss[|ops|].now, true), id);
    assert PersistingAs(ss'[|ops'|], id, r);
  }

  /** A crash in the gap strands an order, and while the transaction stays open some
      continuation persists a second one for it. */
  lemma CrashMidOrderPersistsTwice(ops: seq<Op>, ss: seq<State>, id: string, r: nat)
    returns (ops': seq<Op>, ss': seq<State>)
    requires IsRun(ops, ss) && Persisting(ss[|ops|], id) && Open(ss[|ops|], id) && r !in ss[|ops|].requests
    ensures IsRun(ops', ss') && |ops| < |ops'| && ops <= ops' && ops'[|ops|] == Crash
    ensures OrdersFor(ops', ss', |ops'|, id) == OrdersFor(ops, ss, |ops|, id) + 1
    ensures OrdersFor(ops', ss', |ops'|, id) >= 2
  {
    OrdersAccounted(ops, ss, |ops|, id);
    ops', ss' := Continue(ops, ss, Crash, id);
    ops', ss' := OpenGetsOrder(ops', ss', id, r);
  }

  /** Such a state is reachable. */
  lemma OrderInGap(id: string) returns (ops: seq<Op>, ss: seq<State>)
    ensures IsRun(ops, ss) && Persisting(ss[|ops|], id) && Open(ss[|ops|], id)
  {
    ops, ss := QuoteFoundOpen(id, Buy);
    ops, ss := Extend(ops, ss, Step(0, 5, true));
    ops, ss := Extend(ops, ss, Step(0, 5, true));
    assert PersistingAs(ss[|ops|], id, 0);
  }
}
