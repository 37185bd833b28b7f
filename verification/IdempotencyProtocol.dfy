/** Many handler processes share one idempotency table. Each claims a key under a lease,
    executes the request, and then stores the response, releases the claim or dies; a
    sweeper prunes meanwhile. A run is any interleaving of these atomic steps under one
    non-decreasing clock. */
module IdempotencyProtocol {
  import opened Idempotency

  datatype Config = Config(ttl: int, lease: int)

  /** One execution of a request, from its claim on. */
  datatype Exec = Exec(key: Key, digest: string, claimedAt: int)

  /** `running` is keyed by fencing token; `issued` holds every token ever drawn. */
  datatype State = State(now: int, table: Table, running: map<string, Exec>, issued: set<string>)

  datatype Op =
    | Reserve(key: Key, digest: string, token: string, at: int)
    | Lookup(key: Key, digest: string, at: int)
    | Store(token: string, body: string, at: int)
    | Release(token: string, at: int)
    | Crash(token: string, at: int)
    | Prune(at: int)

  const OK_STATUS: nat := 200

  function Init(start: int): State { State(start, map[], map[], {}) }

  /** The clock does not run back, tokens are fresh, and only a running execution ends. */
  predicate Enabled(s: State, op: Op) {
    op.at >= s.now
    && match op
       case Reserve(_, _, token, _) => token !in s.issued && token != ""
       case Store(token, _, _) => token in s.running
       case Release(token, _) => token in s.running
       case Crash(token, _) => token in s.running
       case _ => true
  }

  /** What the caller of the step sees. */
  function Result(cfg: Config, s: State, op: Op): Reply
    requires Enabled(s, op)
  {
    match op
    case Reserve(k, d, token, at) => Reserved(ReserveReply(s.table, k, d, cfg.ttl, cfg.lease, at, token))
    case Lookup(k, d, at) => Looked(LookupReply(s.table, k, d, cfg.ttl, at))
    case Store(token, _, _) => Stored(StoreLands(s.table, s.running[token].key, token))
    case _ => Released
  }

  predicate Claims(cfg: Config, s: State, op: Op) {
    op.Reserve? && Claimable(s.table, op.key, cfg.ttl, cfg.lease, op.at)
  }

  function Apply(cfg: Config, s: State, op: Op): State
    requires Enabled(s, op)
  {
    match op
    case Reserve(k, d, token, at) =>
      State(at, ReserveRows(s.table, k, d, cfg.ttl, cfg.lease, at, token),
            if Claims(cfg, s, op) then s.running[token := Exec(k, d, at)] else s.running,
            s.issued + {token})
    case Lookup(_, _, at) => s.(now := at)
    case Store(token, body, at) =>
      var e := s.running[token];
      State(at, StoreRows(s.table, e.key, e.digest, CachedResponse(OK_STATUS, body), at, token),
            s.running - {token}, s.issued)
    case Release(token, at) =>
      State(at, ReleaseRows(s.table, s.running[token].key, token), s.running - {token}, s.issued)
    case Crash(token, at) => s.(now := at, running := s.running - {token})
    case Prune(at) => s.(now := at, table := PruneRows(s.table, cfg.ttl, at))
  }

  ghost predicate IsRun(cfg: Config, ops: seq<Op>, ss: seq<State>) {
    |ss| == |ops| + 1
    && ss[0] == Init(ss[0].now)
    && forall i | 0 <= i < |ops| :: Enabled(ss[i], ops[i]) && ss[i + 1] == Apply(cfg, ss[i], ops[i])
  }

  // ---- what every state keeps ----------------------------------------------------

  ghost predicate RowOk(s: State, k: Key, e: Entry) {
    e.createdAt <= s.now
    && (Pending(e) <==> e.reservation != "")
    && (Pending(e) ==> e.reservation in s.issued)
    && (e.reservation in s.running ==>
          s.running[e.reservation] == Exec(k, e.digest, e.createdAt))
  }

  ghost predicate Inv(s: State) {
    (forall tok <- s.running :: tok in s.issued && tok != "" && s.running[tok].claimedAt <= s.now)
    && (forall k <- s.table :: RowOk(s, k, s.table[k]))
    && (forall tok <- s.running :: s.running[tok].key in s.table ==>
          s.table[s.running[tok].key].createdAt >= s.running[tok].claimedAt)
  }

  lemma StepKeepsInv(cfg: Config, s: State, op: Op)
    requires Inv(s) && Enabled(s, op)
    ensures Inv(Apply(cfg, s, op))
  {
    var t := Apply(cfg, s, op);
    forall k | k in t.table ensures RowOk(t, k, t.table[k]) {
      if k in s.table && t.table[k] == s.table[k] { assert RowOk(s, k, s.table[k]); }
    }
  }

  lemma {:induction false} RunKeepsInv(cfg: Config, ops: seq<Op>, ss: seq<State>, n: nat)
    requires IsRun(cfg, ops, ss) && n <= |ops|
    ensures Inv(ss[n])
  {
    if n > 0 {
      RunKeepsInv(cfg, ops, ss, n - 1);
      StepKeepsInv(cfg, ss[n - 1], ops[n - 1]);
    }
  }

  lemma {:induction false} ClockMonotone(cfg: Config, ops: seq<Op>, ss: seq<State>, i: nat, j: nat)
    requires IsRun(cfg, ops, ss) && i <= j <= |ops|
    ensures ss[i].now <= ss[j].now
    decreases j
  {
    if i < j { ClockMonotone(cfg, ops, ss, i, j - 1); }
  }

  // ---- exactly once under the lease ----------------------------------------------

  /** No execution is still running later than the lease or the TTL after its claim. */
  ghost predicate InTime(cfg: Config, s: State) {
    forall tok <- s.running ::
      s.now - s.running[tok].claimedAt <= cfg.lease && s.now - s.running[tok].claimedAt <= cfg.ttl
  }

  /** Every running execution still owns the row it claimed. */
  ghost predicate Owned(s: State) {
    forall tok <- s.running ::
      var e := s.running[tok];
      e.key in s.table && s.table[e.key] == PendingEntry(e.digest, e.claimedAt, tok)
  }

  lemma StepKeepsOwned(cfg: Config, s: State, op: Op)
    requires Inv(s) && Owned(s) && Enabled(s, op) && InTime(cfg, Apply(cfg, s, op))
    ensures Owned(Apply(cfg, s, op))
    ensures op.Store? ==> Result(cfg, s, op) == Stored(true)
  {
    var t := Apply(cfg, s, op);
    forall tok | tok in t.running
      ensures var e := t.running[tok];
              e.key in t.table && t.table[e.key] == PendingEntry(e.digest, e.claimedAt, tok)
    {
      if tok in s.running {
        var e := s.running[tok];
        assert t.running[tok] == e;
        assert s.table[e.key] == PendingEntry(e.digest, e.claimedAt, tok);
      }
    }
  }

  lemma {:induction false} RunKeepsOwned(cfg: Config, ops: seq<Op>, ss: seq<State>, n: nat)
    requires IsRun(cfg, ops, ss) && n <= |ops|
    requires forall i | 0 <= i < |ss| :: InTime(cfg, ss[i])
    ensures Owned(ss[n])
  {
    if n > 0 {
      RunKeepsOwned(cfg, ops, ss, n - 1);
      RunKeepsInv(cfg, ops, ss, n - 1);
      assert InTime(cfg, ss[n]);
      StepKeepsOwned(cfg, ss[n - 1], ops[n - 1]);
    }
  }

  /** When every execution ends within its lease and TTL, two executions of one key never
      overlap, and every response a handler stores is recorded. */
  lemma NoTwoExecutionsOverlap(cfg: Config, ops: seq<Op>, ss: seq<State>)
    requires IsRun(cfg, ops, ss)
    requires forall i | 0 <= i < |ss| :: InTime(cfg, ss[i])
    ensures forall i, a, b | 0 <= i < |ss| && a in ss[i].running && b in ss[i].running
              && ss[i].running[a].key == ss[i].running[b].key :: a == b
    ensures forall i | 0 <= i < |ops| && ops[i].Store? :: Result(cfg, ss[i], ops[i]) == Stored(true)
  {
    forall i, a, b | 0 <= i < |ss| && a in ss[i].running && b in ss[i].running
                     && ss[i].running[a].key == ss[i].running[b].key
      ensures a == b
    {
      RunKeepsOwned(cfg, ops, ss, i);
    }
    forall i | 0 <= i < |ops| && ops[i].Store? ensures Result(cfg, ss[i], ops[i]) == Stored(true) {
      RunKeepsOwned(cfg, ops, ss, i);
      RunKeepsInv(cfg, ops, ss, i);
      assert InTime(cfg, ss[i + 1]);
      StepKeepsOwned(cfg, ss[i], ops[i]);
    }
  }

  /** The bound is exact: beside an execution that owns its row, a second one of the same
      key starts precisely when the first is past its lease or its TTL. */
  lemma OverlapStartsExactly(cfg: Config, ops: seq<Op>, ss: seq<State>, n: nat, tok: string)
    requires IsRun(cfg, ops, ss) && n < |ops| && ops[n].Reserve?
    requires tok in ss[n].running && ss[n].running[tok].key == ops[n].key
    requires ops[n].key in ss[n].table && ss[n].table[ops[n].key].reservation == tok
    ensures var e := ss[n].running[tok];
            (tok in ss[n + 1].running && ops[n].token in ss[n + 1].running
             && ss[n + 1].running[ops[n].token].key == ss[n + 1].running[tok].key)
            <==> ops[n].at - e.claimedAt > cfg.lease || ops[n].at - e.claimedAt > cfg.ttl
  {
    RunKeepsInv(cfg, ops, ss, n);
    assert RowOk(ss[n], ops[n].key, ss[n].table[ops[n].key]);
  }

  /** The bound is needed: a holder one tick past its lease runs beside its successor. */
  lemma SlowHolderOverlaps(k: Key) returns (cfg: Config, ops: seq<Op>, ss: seq<State>)
    ensures IsRun(cfg, ops, ss) && cfg.lease > 0 && cfg.ttl > cfg.lease
    ensures var last := ss[|ops|];
            "a" in last.running && "b" in last.running
            && last.running["a"].key == last.running["b"].key == k
  {
    cfg := Config(100, 10);
    var s0 := Init(0);
    var op0, op1 := Reserve(k, "d", "a", 0), Reserve(k, "d", "b", 11);
    var s1 := Apply(cfg, s0, op0);
    var s2 := Apply(cfg, s1, op1);
    ops, ss := [op0, op1], [s0, s1, s2];
  }

  // ---- results are fenced --------------------------------------------------------

  /** A completed row is not touched by any step until it is older than the TTL. */
  lemma CompletedRowStays(cfg: Config, s: State, op: Op, k: Key)
    requires Inv(s) && Enabled(s, op)
    requires k in s.table && !Pending(s.table[k]) && !Expired(s.table[k], cfg.ttl, op.at)
    ensures var t := Apply(cfg, s, op); k in t.table && t.table[k] == s.table[k]
  {
    assert RowOk(s, k, s.table[k]);
  }

  ghost predicate Lands(cfg: Config, ops: seq<Op>, ss: seq<State>, i: int)
    requires IsRun(cfg, ops, ss)
  {
    0 <= i < |ops| && ops[i].Store? && Result(cfg, ss[i], ops[i]) == Stored(true)
  }

  ghost function StoredRow(ops: seq<Op>, ss: seq<State>, i: int): (Key, Entry)
    requires 0 <= i < |ops| && i < |ss| && ops[i].Store? && Enabled(ss[i], ops[i])
  {
    var e := ss[i].running[ops[i].token];
    (e.key, Entry(e.digest, CachedResponse(OK_STATUS, ops[i].body), ops[i].at, ""))
  }

  lemma {:induction false} ResultStays(cfg: Config, ops: seq<Op>, ss: seq<State>, i: nat, n: nat)
    requires IsRun(cfg, ops, ss) && Lands(cfg, ops, ss, i) && i < n <= |ops|
    requires ss[n].now - ops[i].at <= cfg.ttl
    ensures var (k, e) := StoredRow(ops, ss, i); k in ss[n].table && ss[n].table[k] == e
    decreases n
  {
    if n > i + 1 {
      ClockMonotone(cfg, ops, ss, n - 1, n);
      ResultStays(cfg, ops, ss, i, n - 1);
      RunKeepsInv(cfg, ops, ss, n - 1);
      CompletedRowStays(cfg, ss[n - 1], ops[n - 1], StoredRow(ops, ss, i).0);
    }
  }

  /** The response a step replays, if it replays one. */
  function ReplayOf(cfg: Config, s: State, op: Op): (r: set<CachedResponse>)
    requires Enabled(s, op)
  {
    match Result(cfg, s, op)
    case Reserved(Replay(response)) => {response}
    case Looked(Hit(response)) => {response}
    case _ => {}
  }

  /** Once a response is stored, then for as long as it is not older than the TTL nobody
      executes that key again, every replay is that very response, and only for the same
      request digest. No execution needs to be timely for this. */
  lemma StoredResultIsFinal(cfg: Config, ops: seq<Op>, ss: seq<State>, i: nat, j: nat)
    requires IsRun(cfg, ops, ss) && Lands(cfg, ops, ss, i) && i < j < |ops|
    requires ops[j].at - ops[i].at <= cfg.ttl
    requires (ops[j].Reserve? || ops[j].Lookup?) && ops[j].key == StoredRow(ops, ss, i).0
    ensures !Claims(cfg, ss[j], ops[j])
    ensures if ops[j].digest == StoredRow(ops, ss, i).1.digest
            then ReplayOf(cfg, ss[j], ops[j]) == {CachedResponse(OK_STATUS, ops[i].body)}
            else Result(cfg, ss[j], ops[j]) in {Reserved(Conflict), Looked(Mismatch)}
  {
    ResultStays(cfg, ops, ss, i, j);
  }

  // ---- counting executions -------------------------------------------------------

  ghost predicate Busy(s: State, k: Key) { exists tok :: tok in s.running && s.running[tok].key == k }

  /** The step ends an execution of `k` without a response. */
  predicate FailsAt(s: State, op: Op, k: Key) {
    (op.Release? || op.Crash?) && op.token in s.running && s.running[op.token].key == k
  }

  predicate ClaimsAt(cfg: Config, s: State, op: Op, k: Key) { Claims(cfg, s, op) && op.key == k }

  /** The executions of `k` begun by operations `i` to `n`. */
  function Executions(cfg: Config, ops: seq<Op>, ss: seq<State>, k: Key, i: nat, n: nat): nat
    requires i <= n <= |ops| < |ss|
  {
    if n == i then 0
    else Executions(cfg, ops, ss, k, i, n - 1) + (if ClaimsAt(cfg, ss[n - 1], ops[n - 1], k) then 1 else 0)
  }

  function Failures(ops: seq<Op>, ss: seq<State>, k: Key, i: nat, n: nat): nat
    requires i <= n <= |ops| < |ss|
  {
    if n == i then 0
    else Failures(ops, ss, k, i, n - 1) + (if FailsAt(ss[n - 1], ops[n - 1], k) then 1 else 0)
  }

  /** One of the operations `i` to `n` stored a response for `k`. */
  ghost predicate Answered(ops: seq<Op>, ss: seq<State>, k: Key, i: nat, n: nat)
    requires i <= n <= |ops| < |ss|
  {
    exists m :: i <= m < n && StoresAt(ops, ss, k, m)
  }

  predicate StoresAt(ops: seq<Op>, ss: seq<State>, k: Key, m: nat)
    requires m < |ops| < |ss|
  {
    ops[m].Store? && ops[m].token in ss[m].running && ss[m].running[ops[m].token].key == k
  }

  /** A timely holder keeps others out, so nobody claims a key under execution. */
  lemma BusyKeepsOut(cfg: Config, ops: seq<Op>, ss: seq<State>, n: nat, k: Key)
    requires IsRun(cfg, ops, ss) && n < |ops| && (forall i | 0 <= i < |ss| :: InTime(cfg, ss[i]))
    requires Busy(ss[n], k)
    ensures !ClaimsAt(cfg, ss[n], ops[n], k)
  {
    RunKeepsOwned(cfg, ops, ss, n);
    RunKeepsInv(cfg, ops, ss, n);
    var tok :| tok in ss[n].running && ss[n].running[tok].key == k;
    assert InTime(cfg, ss[n + 1]);
    assert ops[n].Reserve? ==> tok in ss[n + 1].running && ss[n + 1].running[tok] == ss[n].running[tok];
  }

  /** Nor does anyone claim a key answered within the TTL. */
  lemma AnswerKeepsOut(cfg: Config, ops: seq<Op>, ss: seq<State>, i: nat, n: nat, k: Key)
    requires IsRun(cfg, ops, ss) && i <= n < |ops| && (forall i | 0 <= i < |ss| :: InTime(cfg, ss[i]))
    requires Answered(ops, ss, k, i, n) && ops[n].at - ss[i].now <= cfg.ttl
    ensures !ClaimsAt(cfg, ss[n], ops[n], k)
  {
    var m :| i <= m < n && StoresAt(ops, ss, k, m);
    NoTwoExecutionsOverlap(cfg, ops, ss);
    ClockMonotone(cfg, ops, ss, i, m);
    if ClaimsAt(cfg, ss[n], ops[n], k) { StoredResultIsFinal(cfg, ops, ss, m, n); }
  }

  /** After a failure the key is free again: no second execution is left running. */
  lemma EndFreesKey(cfg: Config, ops: seq<Op>, ss: seq<State>, n: nat, k: Key)
    requires IsRun(cfg, ops, ss) && n < |ops| && (forall i | 0 <= i < |ss| :: InTime(cfg, ss[i]))
    ensures FailsAt(ss[n], ops[n], k) ==> Busy(ss[n], k)
    ensures Busy(ss[n], k) && !FailsAt(ss[n], ops[n], k) && !StoresAt(ops, ss, k, n) ==> Busy(ss[n + 1], k)
    ensures ClaimsAt(cfg, ss[n], ops[n], k) ==> Busy(ss[n + 1], k)
  {
    RunKeepsInv(cfg, ops, ss, n);
    var s, t, op := ss[n], ss[n + 1], ops[n];
    if Busy(s, k) && !FailsAt(s, op, k) && !StoresAt(ops, ss, k, n) {
      var tok :| tok in s.running && s.running[tok].key == k;
      assert tok in t.running && t.running[tok] == s.running[tok];
    }
    if ClaimsAt(cfg, s, op, k) { assert op.token in t.running && t.running[op.token].key == k; }
  }

  /** The key is under execution, or was answered since operation `i`. */
  ghost predicate Taken(ops: seq<Op>, ss: seq<State>, k: Key, i: nat, n: nat)
    requires i <= n <= |ops| < |ss|
  {
    Answered(ops, ss, k, i, n) || Busy(ss[n], k)
  }

  lemma TakenAfter(cfg: Config, ops: seq<Op>, ss: seq<State>, k: Key, i: nat, n: nat)
    requires IsRun(cfg, ops, ss) && i <= n < |ops| && (forall i | 0 <= i < |ss| :: InTime(cfg, ss[i]))
    requires ops[n].at - ss[i].now <= cfg.ttl
    ensures ClaimsAt(cfg, ss[n], ops[n], k) ==> !Taken(ops, ss, k, i, n) && Taken(ops, ss, k, i, n + 1)
    ensures FailsAt(ss[n], ops[n], k) ==> Taken(ops, ss, k, i, n)
    ensures Taken(ops, ss, k, i, n) && !FailsAt(ss[n], ops[n], k) ==> Taken(ops, ss, k, i, n + 1)
  {
    EndFreesKey(cfg, ops, ss, n, k);
    if Busy(ss[n], k) { BusyKeepsOut(cfg, ops, ss, n, k); }
    if Answered(ops, ss, k, i, n) {
      AnswerKeepsOut(cfg, ops, ss, i, n, k);
      var m :| i <= m < n && StoresAt(ops, ss, k, m);
      assert Answered(ops, ss, k, i, n + 1);
    }
    if StoresAt(ops, ss, k, n) { assert Answered(ops, ss, k, i, n + 1); }
  }

  lemma {:induction false} ExecutionsCounted(cfg: Config, ops: seq<Op>, ss: seq<State>, k: Key, i: nat, n: nat)
    requires IsRun(cfg, ops, ss) && i <= n <= |ops| && (forall i | 0 <= i < |ss| :: InTime(cfg, ss[i]))
    requires ss[n].now - ss[i].now <= cfg.ttl
    ensures Executions(cfg, ops, ss, k, i, n)
         <= Failures(ops, ss, k, i, n) + (if Taken(ops, ss, k, i, n) then 1 else 0)
  {
    assert n > i ==> ss[n].now == ops[n - 1].at;
    hide Apply, Enabled;
    if n > i {
      ClockMonotone(cfg, ops, ss, n - 1, n);
      ExecutionsCounted(cfg, ops, ss, k, i, n - 1);
      TakenAfter(cfg, ops, ss, k, i, n - 1);
    }
  }

  /** Exactly once, up to retries: while executions are timely, within one TTL a key is
      executed at most once more than its executions failed. If none fails, a second
      execution does not happen. */
  lemma OncePerTtl(cfg: Config, ops: seq<Op>, ss: seq<State>, k: Key, i: nat, n: nat)
    requires IsRun(cfg, ops, ss) && i <= n <= |ops| && (forall i | 0 <= i < |ss| :: InTime(cfg, ss[i]))
    requires ss[n].now - ss[i].now <= cfg.ttl
    ensures Executions(cfg, ops, ss, k, i, n) <= 1 + Failures(ops, ss, k, i, n)
  {
    ExecutionsCounted(cfg, ops, ss, k, i, n);
  }

  /** Where a completed row came from. */
  lemma {:induction false} StoreBehind(cfg: Config, ops: seq<Op>, ss: seq<State>, n: nat, k: Key) returns (i: nat)
    requires IsRun(cfg, ops, ss) && n <= |ops|
    requires k in ss[n].table && !Pending(ss[n].table[k])
    ensures i < n && Lands(cfg, ops, ss, i) && StoredRow(ops, ss, i) == (k, ss[n].table[k])
  {
    var s, op := ss[n - 1], ops[n - 1];
    if k in s.table && s.table[k] == ss[n].table[k] {
      i := StoreBehind(cfg, ops, ss, n - 1, k);
    } else {
      i := n - 1;
    }
  }

  /** Where a running execution was claimed. */
  lemma {:induction false} ClaimBehind(cfg: Config, ops: seq<Op>, ss: seq<State>, n: nat, tok: string) returns (h: nat)
    requires IsRun(cfg, ops, ss) && n <= |ops| && tok in ss[n].running
    ensures h < n && Claims(cfg, ss[h], ops[h]) && ops[h].token == tok
    ensures ss[n].running[tok] == Exec(ops[h].key, ops[h].digest, ops[h].at)
  {
    if tok in ss[n - 1].running && ss[n - 1].running[tok] == ss[n].running[tok] {
      h := ClaimBehind(cfg, ops, ss, n - 1, tok);
    } else {
      h := n - 1;
    }
  }

  /** Every replay is the response of an execution that claimed the same tenant's key with
      the same digest, stored no longer than the TTL ago. */
  lemma ReplayHasAnExecution(cfg: Config, ops: seq<Op>, ss: seq<State>, j: nat, r: CachedResponse)
    returns (h: nat, i: nat)
    requires IsRun(cfg, ops, ss) && j < |ops| && r in ReplayOf(cfg, ss[j], ops[j])
    ensures h < i < j && Claims(cfg, ss[h], ops[h]) && Lands(cfg, ops, ss, i)
    ensures ops[i].token == ops[h].token && r == CachedResponse(OK_STATUS, ops[i].body)
    ensures ops[h].key == ops[j].key && ops[h].digest == ops[j].digest
    ensures ops[j].at - ops[i].at <= cfg.ttl
  {
    i := StoreBehind(cfg, ops, ss, j, ops[j].key);
    h := ClaimBehind(cfg, ops, ss, i, ops[i].token);
  }

  /** And every conflict is with such an execution, of another digest: a request is never told
      of a mismatch with one that is still running. */
  lemma ConflictHasAnExecution(cfg: Config, ops: seq<Op>, ss: seq<State>, j: nat) returns (h: nat, i: nat)
    requires IsRun(cfg, ops, ss) && j < |ops|
    requires Result(cfg, ss[j], ops[j]) in {Looked(Mismatch), Reserved(Conflict)}
    ensures h < i < j && Claims(cfg, ss[h], ops[h]) && Lands(cfg, ops, ss, i) && ops[i].token == ops[h].token
    ensures ops[h].key == ops[j].key && ops[h].digest != ops[j].digest
    ensures ops[j].at - ops[i].at <= cfg.ttl
  {
    i := StoreBehind(cfg, ops, ss, j, ops[j].key);
    h := ClaimBehind(cfg, ops, ss, i, ops[i].token);
  }

  /** While an execution owns its row a lookup misses, and a duplicate request is told to wait
      whatever its digest, until the lease or the TTL runs out. */
  lemma RunningIsInProgress(cfg: Config, ops: seq<Op>, ss: seq<State>, j: nat, tok: string)
    requires IsRun(cfg, ops, ss) && j < |ops| && (ops[j].Lookup? || ops[j].Reserve?)
    requires tok in ss[j].running && ss[j].running[tok].key == ops[j].key
    requires ops[j].key in ss[j].table && ss[j].table[ops[j].key].reservation == tok
    ensures ops[j].Lookup? ==> Result(cfg, ss[j], ops[j]) == Looked(Miss)
    ensures ops[j].Reserve? ==>
              (Result(cfg, ss[j], ops[j]) == Reserved(InProgress)
               <==> ops[j].at - ss[j].running[tok].claimedAt <= cfg.lease
                    && ops[j].at - ss[j].running[tok].claimedAt <= cfg.ttl)
  {
    RunKeepsInv(cfg, ops, ss, j);
    assert RowOk(ss[j], ops[j].key, ss[j].table[ops[j].key]);
  }

  /** All executions of `k` begun before operation `n` were for this digest. */
  ghost predicate SharedDigest(cfg: Config, ops: seq<Op>, ss: seq<State>, n: nat, k: Key, digest: string)
    requires IsRun(cfg, ops, ss)
  {
    forall h | 0 <= h < n && h < |ops| && Claims(cfg, ss[h], ops[h]) && ops[h].key == k :: ops[h].digest == digest
  }

  /** What a poll finds in the state after `n` operations is the response of an execution of
      that digest, and a mismatch only if some execution had another. */
  lemma PollFinds(cfg: Config, ops: seq<Op>, ss: seq<State>, n: nat, o: Observation, k: Key) returns (h: nat, i: nat)
    requires IsRun(cfg, ops, ss) && n <= |ops| && o.rows == ss[n].table && Decisive(o, k, cfg.ttl)
    ensures h < i < n && Claims(cfg, ss[h], ops[h]) && ops[h].key == k && ops[h].digest == o.rows[k].digest
    ensures Lands(cfg, ops, ss, i) && ops[i].token == ops[h].token
    ensures o.rows[k].response == CachedResponse(OK_STATUS, ops[i].body)
  {
    i := StoreBehind(cfg, ops, ss, n, k);
    h := ClaimBehind(cfg, ops, ss, i, ops[i].token);
  }

  /** A caller told to wait, polling the table of a run: if every execution of its key has its
      digest it is never refused as a conflict, and what it is given is what one of them
      stored. `at[i]` is how far the run was at poll `i`. */
  method AwaitInRun(ghost cfg: Config, ghost ops: seq<Op>, ghost ss: seq<State>, ghost at: seq<nat>,
                    k: Key, digest: string, ttl: int, polls: seq<Observation>)
    returns (r: WaitResult)
    requires IsRun(cfg, ops, ss) && cfg.ttl == ttl && |polls| == |at| == MAX_POLLS
    requires forall i | 0 <= i < MAX_POLLS :: at[i] <= |ops| && polls[i].rows == ss[at[i]].table
    ensures SharedDigest(cfg, ops, ss, |ops|, k, digest) ==> r != ConflictError
    ensures r.Replayed? ==>
              exists i | 0 <= i < |ops| ::
                Lands(cfg, ops, ss, i) && r.response == CachedResponse(OK_STATUS, ops[i].body)
  {
    r := AwaitResult(k, digest, ttl, polls);
    if r != RetryLater {
      ghost var p :| 0 <= p < MAX_POLLS && Decisive(polls[p], k, ttl)
        && (r.Replayed? ==> polls[p].rows[k].digest == digest && polls[p].rows[k].response == r.response)
        && (r == ConflictError ==> polls[p].rows[k].digest != digest);
      ghost var h, i := PollFinds(cfg, ops, ss, at[p], polls[p], k);
    }
  }

  /** A holder whose claim was taken over (or swept) writes nothing, with one exception:
      its response is recorded when no row is left for the key at all. */
  lemma SupersededStore(cfg: Config, s: State, op: Op)
    requires Inv(s) && Enabled(s, op) && op.Store?
    requires var e := s.running[op.token];
             e.key in s.table ==> s.table[e.key].reservation != op.token
    ensures Apply(cfg, s, op).table == s.table <==> s.running[op.token].key in s.table
    ensures Result(cfg, s, op) == Stored(s.running[op.token].key !in s.table)
  {
  }

  lemma SupersededRelease(cfg: Config, s: State, op: Op)
    requires Inv(s) && Enabled(s, op) && op.Release?
    ensures Apply(cfg, s, op).table != s.table
            <==> s.running[op.token].key in s.table && s.table[s.running[op.token].key].reservation == op.token
  {
    var e := s.running[op.token];
    if e.key in s.table { assert RowOk(s, e.key, s.table[e.key]); }
  }

  /** So a superseded holder, whatever it comes back with, changes the table in one case
      only: it stores a response and no row is left. */
  lemma SupersededHolder(cfg: Config, ops: seq<Op>, ss: seq<State>, n: nat)
    requires IsRun(cfg, ops, ss) && n < |ops| && (ops[n].Store? || ops[n].Release?)
    requires var k := ss[n].running[ops[n].token].key;
             k in ss[n].table ==> ss[n].table[k].reservation != ops[n].token
    ensures ss[n + 1].table != ss[n].table <==> ops[n].Store? && ss[n].running[ops[n].token].key !in ss[n].table
  {
    RunKeepsInv(cfg, ops, ss, n);
    if ops[n].Store? { SupersededStore(cfg, ss[n], ops[n]); } else { SupersededRelease(cfg, ss[n], ops[n]); }
  }

  /** The exception occurs: A overruns its lease, B takes over, fails and releases, and
      A's late response is then served for the key. */
  lemma LateStoreAfterRelease(k: Key) returns (cfg: Config, ops: seq<Op>, ss: seq<State>)
    ensures IsRun(cfg, ops, ss) && |ops| == 4 && cfg.ttl > cfg.lease
    ensures Claims(cfg, ss[0], ops[0]) && Claims(cfg, ss[1], ops[1]) && ops[0].token != ops[1].token
    ensures ops[2] == Release(ops[1].token, ops[2].at)
    ensures ops[3].Store? && ops[3].token == ops[0].token && Lands(cfg, ops, ss, 3)
  {
    cfg := Config(100, 10);
    var s0 := Init(0);
    var op0, op1 := Reserve(k, "d", "a", 0), Reserve(k, "d", "b", 11);
    var op2, op3 := Release("b", 12), Store("a", "late", 13);
    var s1 := Apply(cfg, s0, op0);
    var s2 := Apply(cfg, s1, op1);
    var s3 := Apply(cfg, s2, op2);
    ops, ss := [op0, op1, op2, op3], [s0, s1, s2, s3, Apply(cfg, s3, op3)];
  }

  // ---- the sweeper is invisible --------------------------------------------------

  function WithoutPrunes(ops: seq<Op>): (r: seq<Op>) {
    if ops == [] then []
    else if ops[0].Prune? then WithoutPrunes(ops[1..])
    else [ops[0]] + WithoutPrunes(ops[1..])
  }

  /** Each step is enabled when its turn comes, and a holder that stores or releases does
      so within the TTL of its claim. */
  predicate HoldersTimely(cfg: Config, s: State, ops: seq<Op>)
    decreases ops
  {
    ops == [] ||
    (Enabled(s, ops[0])
     && (ops[0].Store? || ops[0].Release? ==> ops[0].at - s.running[ops[0].token].claimedAt <= cfg.ttl)
     && HoldersTimely(cfg, Apply(cfg, s, ops[0]), ops[1..]))
  }

  predicate AllEnabled(cfg: Config, s: State, ops: seq<Op>)
    decreases ops
  {
    ops == [] || (Enabled(s, ops[0]) && AllEnabled(cfg, Apply(cfg, s, ops[0]), ops[1..]))
  }

  /** What every caller sees, in order; a prune has no caller. */
  function Seen(cfg: Config, s: State, ops: seq<Op>): seq<Reply>
    requires AllEnabled(cfg, s, ops)
    decreases ops
  {
    if ops == [] then []
    else (if ops[0].Prune? then [] else [Result(cfg, s, ops[0])]) + Seen(cfg, Apply(cfg, s, ops[0]), ops[1..])
  }

  /** The swept state agrees with the unswept one on every row not yet expired. */
  ghost predicate SameLiveRows(cfg: Config, swept: State, kept: State) {
    kept.now <= swept.now && kept.running == swept.running && kept.issued == swept.issued
    && (forall k <- swept.table :: k in kept.table && kept.table[k] == swept.table[k])
    && (forall k <- kept.table :: k !in swept.table ==> Expired(kept.table[k], cfg.ttl, swept.now))
  }

  lemma StepSimulates(cfg: Config, swept: State, kept: State, op: Op)
    requires SameLiveRows(cfg, swept, kept) && Inv(kept) && Enabled(swept, op)
    requires op.Store? || op.Release? ==> op.at - swept.running[op.token].claimedAt <= cfg.ttl
    ensures op.Prune? ==> SameLiveRows(cfg, Apply(cfg, swept, op), kept)
    ensures !op.Prune? ==> Enabled(kept, op) && Result(cfg, swept, op) == Result(cfg, kept, op)
                           && SameLiveRows(cfg, Apply(cfg, swept, op), Apply(cfg, kept, op))
  {
    if op.Store? || op.Release? {
      var e := kept.running[op.token];
      assert e.key in kept.table ==> kept.table[e.key].createdAt >= e.claimedAt;
    }
  }

  /** Deleting every prune from a run changes no answer anyone gets. */
  lemma {:induction false} SweeperInvisible(cfg: Config, swept: State, kept: State, ops: seq<Op>)
    requires SameLiveRows(cfg, swept, kept) && Inv(kept) && HoldersTimely(cfg, swept, ops)
    ensures AllEnabled(cfg, swept, ops) && AllEnabled(cfg, kept, WithoutPrunes(ops))
    ensures Seen(cfg, swept, ops) == Seen(cfg, kept, WithoutPrunes(ops))
    decreases ops
  {
    if ops != [] {
      var op := ops[0];
      StepSimulates(cfg, swept, kept, op);
      var next := Apply(cfg, swept, op);
      if op.Prune? {
        SweeperInvisible(cfg, next, kept, ops[1..]);
      } else {
        StepKeepsInv(cfg, kept, op);
        SweeperInvisible(cfg, next, Apply(cfg, kept, op), ops[1..]);
        assert WithoutPrunes(ops)[1..] == WithoutPrunes(ops[1..]);
      }
    }
  }

  lemma SweeperInvisibleFromStart(cfg: Config, start: int, ops: seq<Op>)
    requires HoldersTimely(cfg, Init(start), ops)
    ensures AllEnabled(cfg, Init(start), ops) && AllEnabled(cfg, Init(start), WithoutPrunes(ops))
    ensures Seen(cfg, Init(start), ops) == Seen(cfg, Init(start), WithoutPrunes(ops))
  {
    SweeperInvisible(cfg, Init(start), Init(start), ops);
  }
}
