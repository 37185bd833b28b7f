/** The durable webhook outbox: five delivery states, bounded retries with a growing
    delay, recovery of interrupted sends, operator retries, and retention. */
module Outbox {
  import opened Decimals
  import opened Measures
  import opened Wrappers

  datatype Status = Pending | InFlight | Delivered | Failed | DeadLettered

  datatype Delivery = Delivery(
    url: string,
    payload: string,
    status: Status,
    attempts: nat,
    maxAttempts: nat,
    nextAt: int,
    lastCode: Option<nat>,
    lastError: Option<string>,
    createdAt: int,
    updatedAt: int,
    deliveredAt: Option<int>)

  type Rows = map<string, Delivery>

  datatype RetryError = NotFound | AlreadyPending | StillInFlight | AlreadyDelivered

  datatype RetryResult = Retried(delivery: Delivery) | Refused(error: RetryError)

  /** What the destination did with one send. */
  datatype Outcome = Responded(code: nat) | Errored(message: string)

  predicate Accepted(o: Outcome) { o.Responded? && 200 <= o.code < 300 }

  predicate Waiting(d: Delivery) { d.status in {Pending, Failed} }

  predicate Due(d: Delivery, now: int) { Waiting(d) && d.nextAt <= now }

  /** The square of the attempts so far, in seconds, and never more than an hour. */
  function BackoffFor(attempts: nat): int { Min(Min(attempts * attempts, I64_MAX), 3600) * SECOND }

  /** Exactly so, for every 32-bit count. */
  lemma BackoffIsSquare(a: nat)
    requires a <= U32_MAX
    ensures BackoffFor(a) == (if a < 60 then a * a else 3600) * SECOND
  {
    if a < 60 { SquareGrows(a, 60); }
    if a > 60 { SquareGrows(60, a); }
  }

  lemma SquareGrows(a: nat, b: nat)
    requires a < b
    ensures a * a < b * b
  {
    assert b * b == a * b + (b - a) * b;
    assert a * b == a * a + a * (b - a);
  }

  /** The delay grows with every failure up to the sixtieth, and is an hour from then on. */
  lemma BackoffGrows(a: nat, b: nat)
    requires 1 <= a < b
    ensures SECOND <= BackoffFor(a) <= BackoffFor(b) <= 3600 * SECOND
    ensures BackoffFor(a) == BackoffFor(b) <==> a >= 60
  {
    SquareGrows(a, b);
    if a < 60 { SquareGrows(a, 60); }
    if a > 60 { SquareGrows(60, a); }
  }

  // ---- what one update does to a row ---------------------------------------------

  function Sending(d: Delivery, now: int): Delivery { d.(status := InFlight, updatedAt := now) }

  function Settled(d: Delivery, o: Outcome, now: int): Delivery {
    var n := Succ32(d.attempts);
    if Accepted(o) then
      d.(status := Delivered, attempts := n, lastCode := Some(o.code), lastError := None,
         deliveredAt := Some(now), updatedAt := now)
    else
      var f := d.(attempts := n, lastCode := CodeOf(o), lastError := Some(ErrorOf(o)), updatedAt := now);
      if n >= d.maxAttempts then f.(status := DeadLettered)
      else f.(status := Failed, nextAt := now + BackoffFor(n))
  }

  function CodeOf(o: Outcome): Option<nat> { if o.Responded? then Some(o.code) else None }

  function ErrorOf(o: Outcome): string { if o.Responded? then "HTTP " + Decimal(o.code) else o.message }

  function Reclaimed(d: Delivery, now: int): Delivery {
    if d.status == InFlight then d.(status := Pending, nextAt := now, updatedAt := now) else d
  }

  function Reset(d: Delivery, now: int): Delivery {
    d.(status := Pending, attempts := 0, lastCode := None, lastError := None, deliveredAt := None,
       nextAt := now, updatedAt := now)
  }

  function RefusalOf(rows: Rows, id: string): Option<RetryError> {
    if id !in rows then Some(NotFound)
    else match rows[id].status
      case Pending => Some(AlreadyPending)
      case InFlight => Some(StillInFlight)
      case Delivered => Some(AlreadyDelivered)
      case _ => None
  }

  /** A settled row past the retention of its status; retention goes by age since enqueue. */
  predicate Outdated(d: Delivery, status: Status, cutoff: Option<int>) {
    d.status == status && cutoff.Some? && d.createdAt < cutoff.value
  }

  function OutdatedIn(rows: Rows, ids: set<string>, status: Status, cutoff: Option<int>): set<string> {
    set id | id in ids && id in rows && Outdated(rows[id], status, cutoff)
  }

  predicate Retains(d: Delivery, delivered: Option<int>, dead: Option<int>) {
    !Outdated(d, Delivered, delivered) && !Outdated(d, DeadLettered, dead)
  }

  function Kept(rows: Rows, delivered: Option<int>, dead: Option<int>): Rows {
    map id | id in rows && Retains(rows[id], delivered, dead) :: rows[id]
  }

  /** A sweep that still has to look at `rest`. */
  ghost predicate Sifting(was: Rows, kept: Rows, rest: set<string>, delivered: Option<int>, dead: Option<int>) {
    (forall id <- rest :: id in kept)
    && (forall id <- kept :: id in was && kept[id] == was[id])
    && (forall id <- was | id !in rest :: id in kept <==> Retains(was[id], delivered, dead))
  }

  ghost function SeenOutdated(was: Rows, rest: set<string>, status: Status, cutoff: Option<int>): nat {
    |OutdatedIn(was, was.Keys - rest, status, cutoff)|
  }

  lemma SiftStep(was: Rows, kept: Rows, rest: set<string>, delivered: Option<int>, dead: Option<int>, id: string)
    requires Sifting(was, kept, rest, delivered, dead) && id in rest
    ensures id in kept && id in was && kept[id] == was[id]
    ensures Sifting(was, if Retains(was[id], delivered, dead) then kept else kept - {id}, rest - {id}, delivered, dead)
  {
  }

  lemma SeenOneMore(was: Rows, rest: set<string>, id: string, status: Status, cutoff: Option<int>)
    requires id in was && id in rest
    ensures SeenOutdated(was, rest - {id}, status, cutoff)
         == SeenOutdated(was, rest, status, cutoff) + (if Outdated(was[id], status, cutoff) then 1 else 0)
  {
    assert was.Keys - (rest - {id}) == (was.Keys - rest) + {id};
    OutdatedOneMore(was, was.Keys - rest, id, status, cutoff);
  }

  lemma OutdatedOneMore(rows: Rows, ids: set<string>, id: string, status: Status, cutoff: Option<int>)
    requires id in rows && id !in ids
    ensures |OutdatedIn(rows, ids + {id}, status, cutoff)|
         == |OutdatedIn(rows, ids, status, cutoff)| + (if Outdated(rows[id], status, cutoff) then 1 else 0)
  {
    var more, before := OutdatedIn(rows, ids + {id}, status, cutoff), OutdatedIn(rows, ids, status, cutoff);
    if Outdated(rows[id], status, cutoff) { assert more == before + {id}; } else { assert more == before; }
  }

  /** A batch takes due rows oldest first: nothing due is left out unless the batch is full
      of rows due no later. Ties may fall either way. */
  ghost predicate IsDueBatch(rows: Rows, now: int, limit: nat, batch: seq<string>) {
    (forall i, j | 0 <= i < j < |batch| :: batch[i] != batch[j])
    && (forall id <- batch :: id in rows && Due(rows[id], now))
    && (forall i, j | 0 <= i < j < |batch| :: rows[batch[i]].nextAt <= rows[batch[j]].nextAt)
    && |batch| <= limit
    && (forall id <- rows | Due(rows[id], now) && id !in batch ::
          |batch| == limit && forall b <- batch :: rows[b].nextAt <= rows[id].nextAt)
  }

  // ---- the outbox ----------------------------------------------------------------

  class WebhookOutbox {
    var rows: Rows

    constructor ()
      ensures rows == map[]
    {
      rows := map[];
    }

    method Enqueue(id: string, d: Delivery)
      modifies this
      ensures rows == old(rows)[id := d]
    {
      rows := rows[id := d];
    }

    /** The database inserts with `ON CONFLICT DO NOTHING`: the row already there stays. */
    method EnqueueSql(id: string, d: Delivery)
      modifies this
      ensures rows == if id in old(rows) then old(rows) else old(rows)[id := d]
    {
      if id !in rows { rows := rows[id := d]; }
    }

    method Place(id: string, sorted: seq<string>) returns (r: seq<string>)
      requires id in rows && id !in sorted && forall x <- sorted :: x in rows
      requires forall i, j | 0 <= i < j < |sorted| :: sorted[i] != sorted[j]
      requires forall i, j | 0 <= i < j < |sorted| :: rows[sorted[i]].nextAt <= rows[sorted[j]].nextAt
      ensures forall x :: x in r <==> x == id || x in sorted
      ensures forall i, j | 0 <= i < j < |r| :: r[i] != r[j]
      ensures forall i, j | 0 <= i < j < |r| :: rows[r[i]].nextAt <= rows[r[j]].nextAt
    {
      var k := 0;
      while k < |sorted| && rows[sorted[k]].nextAt <= rows[id].nextAt
        invariant k <= |sorted|
        invariant forall i | 0 <= i < k :: rows[sorted[i]].nextAt <= rows[id].nextAt
      {
        k := k + 1;
      }
      r := sorted[..k] + [id] + sorted[k..];
      assert forall x <- sorted :: x in sorted[..k] || x in sorted[k..];
    }

    method ListDue(now: int, limit: nat) returns (due: seq<string>)
      ensures IsDueBatch(rows, now, limit, due)
      ensures |due| <= limit
      ensures forall id <- due :: id in rows && rows[id].status in {Pending, Failed} && rows[id].nextAt <= now
      ensures forall i, j | 0 <= i < j < |due| :: rows[due[i]].nextAt <= rows[due[j]].nextAt
      ensures forall id <- rows | rows[id].status in {Pending, Failed} && rows[id].nextAt <= now && id !in due ::
                |due| == limit && forall b <- due :: rows[b].nextAt <= rows[id].nextAt
    {
      var all, rest := [], rows.Keys;
      while rest != {}
        invariant rest <= rows.Keys
        invariant forall id :: id in all <==> id in rows.Keys - rest && Due(rows[id], now)
        invariant forall id <- all :: id in rows
        invariant forall i, j | 0 <= i < j < |all| :: all[i] != all[j]
        invariant forall i, j | 0 <= i < j < |all| :: rows[all[i]].nextAt <= rows[all[j]].nextAt
        decreases rest
      {
        var id :| id in rest;
        if Due(rows[id], now) { all := Place(id, all); }
        rest := rest - {id};
      }
      due := if |all| <= limit then all else all[..limit];
    }

    method MarkInFlight(id: string, now: int)
      modifies this
      ensures rows == if id in old(rows) then old(rows)[id := Sending(old(rows)[id], now)] else old(rows)
      ensures id in rows ==> rows[id] == old(rows)[id].(status := InFlight, updatedAt := now)
    {
      if id in rows { rows := rows[id := rows[id].(status := InFlight, updatedAt := now)]; }
    }

    method MarkDelivered(id: string, code: nat, now: int)
      requires 200 <= code < 300
      modifies this
      ensures rows == if id in old(rows) then old(rows)[id := Settled(old(rows)[id], Responded(code), now)]
                      else old(rows)
      ensures id in rows ==>
                rows[id].status == Delivered && rows[id].deliveredAt == Some(now)
                && rows[id].lastCode == Some(code) && rows[id].lastError == None && rows[id].updatedAt == now
                && rows[id].attempts == Min(old(rows)[id].attempts + 1, U32_MAX)
                && rows[id].maxAttempts == old(rows)[id].maxAttempts && rows[id].nextAt == old(rows)[id].nextAt
    {
      if id in rows {
        var d := rows[id].(status := Delivered, lastCode := Some(code), lastError := None,
                           deliveredAt := Some(now), updatedAt := now);
        rows := rows[id := d.(attempts := Succ32(d.attempts))];
      }
    }

    method BumpFailure(id: string, code: Option<nat>, error: Option<string>, now: int, ghost o: Outcome)
      requires !Accepted(o) && code == CodeOf(o) && error == Some(ErrorOf(o))
      modifies this
      ensures rows == if id in old(rows) then old(rows)[id := Settled(old(rows)[id], o, now)] else old(rows)
      ensures id in rows ==>
                var n := Min(old(rows)[id].attempts + 1, U32_MAX);
                rows[id].attempts == n && rows[id].lastCode == code && rows[id].lastError == error
                && rows[id].status == (if n >= old(rows)[id].maxAttempts then DeadLettered else Failed)
                && rows[id].nextAt == (if n >= old(rows)[id].maxAttempts then old(rows)[id].nextAt
                                       else now + (if n < 60 then n * n else 3600) * SECOND)
                && rows[id].deliveredAt == old(rows)[id].deliveredAt && rows[id].updatedAt == now
    {
      if id in rows {
        BackoffIsSquare(Succ32(rows[id].attempts));
        var d := rows[id];
        d := d.(attempts := Succ32(d.attempts), lastCode := code, lastError := error, updatedAt := now);
        if d.attempts >= d.maxAttempts {
          d := d.(status := DeadLettered);
        } else {
          d := d.(status := Failed, nextAt := now + BackoffFor(d.attempts));
        }
        rows := rows[id := d];
      }
    }

    /** After a restart every interrupted send is due at once, and nothing is in flight. */
    method ReclaimInFlight(now: int) returns (count: nat)
      modifies this
      ensures rows == map id | id in old(rows) :: Reclaimed(old(rows)[id], now)
      ensures count == |set id | id in old(rows) && old(rows)[id].status == InFlight|
      ensures forall id <- rows :: rows[id].status != InFlight
      ensures forall id <- rows ::
                rows[id] == if old(rows)[id].status == InFlight
                            then old(rows)[id].(status := Pending, nextAt := now, updatedAt := now) else old(rows)[id]
    {
      count := 0;
      var rest := rows.Keys;
      ghost var done := {};
      while rest != {}
        invariant rest <= rows.Keys == old(rows).Keys
        invariant forall id <- rest :: rows[id] == old(rows)[id]
        invariant forall id <- rows.Keys - rest :: rows[id] == Reclaimed(old(rows)[id], now)
        invariant done == set id | id in old(rows).Keys - rest && old(rows)[id].status == InFlight
        invariant count == |done|
        decreases rest
      {
        var id :| id in rest;
        if rows[id].status == InFlight {
          rows := rows[id := rows[id].(status := Pending, nextAt := now, updatedAt := now)];
          count := count + 1;
          done := done + {id};
        }
        rest := rest - {id};
      }
      assert done == set id | id in old(rows) && old(rows)[id].status == InFlight;
    }

    method ResetForRetry(id: string, now: int) returns (r: RetryResult)
      modifies this
      ensures RefusalOf(old(rows), id).Some? ==> r == Refused(RefusalOf(old(rows), id).value) && rows == old(rows)
      ensures RefusalOf(old(rows), id).None? ==>
                id in old(rows) && rows == old(rows)[id := Reset(old(rows)[id], now)] && r == Retried(rows[id])
      ensures r.Retried? <==> id in old(rows) && old(rows)[id].status in {Failed, DeadLettered}
      ensures r.Refused? ==>
                r.error == if id !in old(rows) then NotFound
                           else if old(rows)[id].status == Pending then AlreadyPending
                           else if old(rows)[id].status == InFlight then StillInFlight else AlreadyDelivered
      ensures r.Retried? ==>
                rows[id] == old(rows)[id].(status := Pending, attempts := 0, lastCode := None, lastError := None,
                                           deliveredAt := None, nextAt := now, updatedAt := now)
    {
      if id !in rows { return Refused(NotFound); }
      match rows[id].status {
        case Pending => return Refused(AlreadyPending);
        case InFlight => return Refused(StillInFlight);
        case Delivered => return Refused(AlreadyDelivered);
        case Failed =>
        case DeadLettered =>
      }
      rows := rows[id := Reset(rows[id], now)];
      r := Retried(rows[id]);
    }

    method Prune(delivered: Option<int>, dead: Option<int>) returns (deliveredPruned: nat, deadPruned: nat)
      modifies this
      ensures rows == Kept(old(rows), delivered, dead)
      ensures deliveredPruned == |OutdatedIn(old(rows), old(rows).Keys, Delivered, delivered)|
      ensures deadPruned == |OutdatedIn(old(rows), old(rows).Keys, DeadLettered, dead)|
      ensures forall id <- old(rows) :: id !in rows <==>
                (old(rows)[id].status == Delivered && delivered.Some? && old(rows)[id].createdAt < delivered.value)
                || (old(rows)[id].status == DeadLettered && dead.Some? && old(rows)[id].createdAt < dead.value)
    {
      deliveredPruned, deadPruned := 0, 0;
      ghost var was := rows;
      var kept, rest := rows, rows.Keys;
      while rest != {}
        invariant Sifting(was, kept, rest, delivered, dead)
        invariant deliveredPruned == SeenOutdated(was, rest, Delivered, delivered)
        invariant deadPruned == SeenOutdated(was, rest, DeadLettered, dead)
        decreases rest
      {
        var id :| id in rest;
        SiftStep(was, kept, rest, delivered, dead, id);
        SeenOneMore(was, rest, id, Delivered, delivered);
        SeenOneMore(was, rest, id, DeadLettered, dead);
        var dropForDelivered, dropForDead := Drops(kept[id], delivered, dead);
        if dropForDelivered { deliveredPruned := deliveredPruned + 1; }
        if dropForDead { deadPruned := deadPruned + 1; }
        if dropForDelivered || dropForDead { kept := kept - {id}; }
        rest := rest - {id};
      }
      assert was.Keys - rest == was.Keys;
      rows := kept;
    }
  }

  method Drops(d: Delivery, delivered: Option<int>, dead: Option<int>) returns (forDelivered: bool, forDead: bool)
    ensures forDelivered == Outdated(d, Delivered, delivered) && forDead == Outdated(d, DeadLettered, dead)
    ensures Retains(d, delivered, dead) <==> !forDelivered && !forDead
  {
    forDelivered := d.status == Delivered && delivered.Some? && d.createdAt < delivered.value;
    forDead := d.status == DeadLettered && dead.Some? && d.createdAt < dead.value;
  }
}
