/** The SQLite backend of the idempotency store: a keyed relation with text columns,
    the upserts and deletes as written, and the proof that it answers every sequence of
    calls as the in-memory map does. */
module IdempotencySql {
  import opened Idempotency
  import opened Wrappers
  import T = Timestamps

  datatype Row = Row(key: Key, digest: string, status: nat, body: string, createdAt: string, reservation: string)

  type Relation = seq<Row>

  /** The primary key. */
  ghost predicate Keyed(rows: Relation) {
    forall i, j | 0 <= i < j < |rows| :: rows[i].key != rows[j].key
  }

  /** Every timestamp in the column was written by `Format`. */
  ghost predicate Stamped(rows: Relation) {
    forall i | 0 <= i < |rows| :: StampOk(rows[i])
  }

  ghost predicate StampOk(r: Row) {
    exists t :: T.Written(r.createdAt, t)
  }

  ghost predicate Valid(rows: Relation) { Keyed(rows) && Stamped(rows) }

  function Find(rows: Relation, k: Key): (i: int)
    ensures -1 <= i < |rows|
    ensures i >= 0 ==> rows[i].key == k
    ensures i < 0 ==> forall j | 0 <= j < |rows| :: rows[j].key != k
  {
    if rows == [] then -1
    else if rows[0].key == k then 0
    else var i := Find(rows[1..], k); if i < 0 then -1 else i + 1
  }

  /** INSERT ... ON CONFLICT DO UPDATE. */
  function Upsert(rows: Relation, r: Row): Relation {
    var i := Find(rows, r.key);
    if i < 0 then rows + [r] else rows[i := r]
  }

  function Where(rows: Relation, keep: Row -> bool): (kept: Relation)
    ensures |kept| <= |rows|
  {
    if rows == [] then []
    else if keep(rows[0]) then [rows[0]] + Where(rows[1..], keep)
    else Where(rows[1..], keep)
  }

  class SqliteStore {
    var rows: Relation
    const ttl: int

    constructor (ttl: int)
      ensures rows == [] && this.ttl == ttl && Valid(rows)
    {
      rows := [];
      this.ttl := ttl;
    }

    /** SELECT ... WHERE key = k, with the timestamp column read back. */
    method Select(k: Key, now: int) returns (hit: Option<Row>, created: int)
      requires Valid(rows)
      ensures hit.None? <==> k !in Abs(rows)
      ensures hit.Some? ==>
                var r := hit.value;
                Abs(rows)[k] == Entry(r.digest, CachedResponse(r.status, r.body), created, r.reservation)
    {
      AbsAt(rows, k);
      var i := Find(rows, k);
      if i < 0 { return None, now; }
      hit := Some(rows[i]);
      created := ReadCreatedAt(rows[i], now);
    }

    method Reserve(k: Key, digest: string, now: int, lease: int, token: string) returns (o: ReserveOutcome)
      requires Valid(rows) && T.Writable(now)
      modifies this
      ensures Valid(rows)
      ensures Abs(rows) == ReserveRows(old(Abs(rows)), k, digest, ttl, lease, now, token)
      ensures o == ReserveReply(old(Abs(rows)), k, digest, ttl, lease, now, token)
    {
      hide T.Written, T.Writable;
      var hit, created := Select(k, now);
      o := Decide(Abs(rows), k, hit, created, digest, now, lease, token);
      if o.Won? { ClaimPending(k, digest, now, token); }
    }

    /** What the row found means for the caller; `t` is what the relation stands for. */
    method Decide(ghost t: Table, k: Key, hit: Option<Row>, created: int,
                  digest: string, now: int, lease: int, token: string)
      returns (o: ReserveOutcome)
      requires hit.None? <==> k !in t
      requires hit.Some? ==>
                 var r := hit.value; t[k] == Entry(r.digest, CachedResponse(r.status, r.body), created, r.reservation)
      ensures o == ReserveReply(t, k, digest, ttl, lease, now, token)
    {
      if hit.None? { return Won(token); }
      var r := hit.value;
      if now - created > ttl { return Won(token); }
      if r.status == PENDING_STATUS {
        o := if now - created > lease then Won(token) else InProgress;
      } else if r.digest == digest {
        o := Replay(CachedResponse(r.status, r.body));
      } else {
        o := Conflict;
      }
    }

    /** The unconditional upsert of a pending row. */
    method ClaimPending(k: Key, digest: string, now: int, token: string)
      requires Valid(rows) && T.Writable(now)
      modifies this
      ensures Valid(rows)
      ensures Abs(rows) == old(Abs(rows))[k := PendingEntry(digest, now, token)]
    {
      var text := T.Format(now);
      var r := Row(k, digest, PENDING_STATUS, "", text, token);
      UpsertIsUpdate(rows, r, now);
      rows := Upsert(rows, r);
    }

    method Lookup(k: Key, digest: string, now: int) returns (o: LookupOutcome)
      requires Valid(rows)
      ensures o == LookupReply(Abs(rows), k, digest, ttl, now)
    {
      var hit, created := Select(k, now);
      if hit.None? { return Miss; }
      var r := hit.value;
      if now - created > ttl || r.status == PENDING_STATUS { return Miss; }
      o := if r.digest == digest then Hit(CachedResponse(r.status, r.body)) else Mismatch;
    }

    /** DELETE ... WHERE response_status = 0 AND reservation_id = ?. */
    method Release(k: Key, token: string)
      requires Valid(rows)
      modifies this
      ensures Valid(rows)
      ensures Abs(rows) == ReleaseRows(old(Abs(rows)), k, token)
    {
      var keep := (r: Row) => !(r.key == k && r.status == PENDING_STATUS && r.reservation == token);
      ReleaseKeeps(rows, keep, k, token);
      rows := Where(rows, keep);
    }

    /** The upsert's WHERE guards the update arm only; an absent key is inserted. */
    method Store(k: Key, digest: string, response: CachedResponse, now: int, token: string) returns (landed: bool)
      requires Valid(rows) && T.Writable(now)
      modifies this
      ensures Valid(rows)
      ensures Abs(rows) == StoreRows(old(Abs(rows)), k, digest, response, now, token)
      ensures landed == StoreLands(old(Abs(rows)), k, token)
    {
      var hit, _ := Select(k, now);
      landed := hit.None? || hit.value.reservation == token;
      if landed {
        var text := T.Format(now);
        var done := Row(k, digest, response.status, response.body, text, "");
        UpsertIsUpdate(rows, done, now);
        rows := Upsert(rows, done);
      }
    }

    /** DELETE ... WHERE created_at < cutoff, as a text comparison. */
    method Prune(now: int) returns (removed: int)
      requires Valid(rows) && T.Writable(now - ttl)
      modifies this
      ensures Valid(rows)
      ensures Abs(rows) == PruneRows(old(Abs(rows)), ttl, now)
      ensures removed == |old(Abs(rows))| - |Abs(rows)|
    {
      var cutoff := T.Format(now - ttl);
      var keep := (r: Row) => !T.Before(r.createdAt, cutoff);
      PruneKeeps(rows, keep, cutoff, ttl, now);
      AbsSize(rows);
      AbsSize(Where(rows, keep));
      removed := |rows| - |Where(rows, keep)|;
      rows := Where(rows, keep);
    }

    method Do(c: Call) returns (r: Reply)
      requires Valid(rows) && InRange(c, ttl)
      modifies this
      ensures Valid(rows)
      ensures Abs(rows) == Effect(old(Abs(rows)), ttl, c) && r == Answer(old(Abs(rows)), ttl, c)
    {
      hide T.Written, T.Writable;
      match c {
        case CallReserve(k, digest, at, lease, token) =>
          var o := Reserve(k, digest, at, lease, token);
          r := Reserved(o);
        case CallLookup(k, digest, at) =>
          var o := Lookup(k, digest, at);
          r := Looked(o);
        case CallStore(k, digest, response, at, token) =>
          var landed := Store(k, digest, response, at, token);
          r := Stored(landed);
        case CallRelease(k, token) =>
          Release(k, token);
          r := Released;
        case CallPrune(at) =>
          var removed := Prune(at);
          r := Pruned(removed);
      }
    }
  }

  /** The instant in a row's column. The fallback is never taken on a `Valid` relation. */
  method ReadCreatedAt(r: Row, now: int) returns (t: int)
    requires StampOk(r)
    ensures t == StampOf(r)
  {
    T.ColumnReads(r.createdAt, StampOf(r));
    var p := T.Parse(r.createdAt);
    t := if p.Some? then p.value else now;
  }

  // ---- refinement ----------------------------------------------------------------

  /** The clock readings a call makes fit the text columns. */
  ghost predicate InRange(c: Call, ttl: int) {
    match c
    case CallReserve(_, _, at, _, _) => T.Writable(at)
    case CallStore(_, _, _, at, _) => T.Writable(at)
    case CallPrune(at) => T.Writable(at - ttl)
    case _ => true
  }

  /** Any calls in any order, made against both backends: every answer is the same, and
      afterwards the relation stands for exactly the in-memory map; so it does after every
      call, since the calls so far are themselves such a sequence. */
  method DriveBoth(calls: seq<Call>, ttl: int)
    returns (fromMap: seq<Reply>, fromTable: seq<Reply>, ghost mapRows: Table, ghost tableRows: Relation)
    requires forall c <- calls :: InRange(c, ttl)
    ensures fromMap == fromTable == Answers(calls, ttl)
    ensures Valid(tableRows) && Abs(tableRows) == mapRows == RowsAfter(calls, ttl)
  {
    var mem := new MemoryStore(ttl);
    var sql := new SqliteStore(ttl);
    fromMap, fromTable := [], [];
    for i := 0 to |calls|
      invariant fromMap == fromTable == Answers(calls[..i], ttl)
      invariant Valid(sql.rows) && Abs(sql.rows) == mem.rows == RowsAfter(calls[..i], ttl)
      invariant mem.ttl == sql.ttl == ttl && fresh(mem) && fresh(sql)
    {
      var c := calls[i];
      assert InRange(c, ttl);
      assert calls[..i + 1][..i] == calls[..i];
      var x := mem.Do(c);
      var y := sql.Do(c);
      fromMap, fromTable := fromMap + [x], fromTable + [y];
    }
    assert calls[..|calls|] == calls;
    mapRows, tableRows := mem.rows, sql.rows;
  }

  // ---- the abstraction -----------------------------------------------------------

  /** The instant a row's column was written for. */
  ghost function StampOf(r: Row): (t: int)
    ensures StampOk(r) ==> T.Written(r.createdAt, t)
  {
    if StampOk(r) then var t :| T.Written(r.createdAt, t); t else 0
  }

  ghost function EntryOf(r: Row): Entry {
    Entry(r.digest, CachedResponse(r.status, r.body), StampOf(r), r.reservation)
  }

  /** The map a relation stands for. */
  ghost function Abs(rows: Relation): Table {
    if rows == [] then map[] else Abs(rows[1..])[rows[0].key := EntryOf(rows[0])]
  }

  ghost predicate HasKey(rows: Relation, k: Key) {
    exists i | 0 <= i < |rows| :: rows[i].key == k
  }

  /** `t` is the map that `rows` stands for. */
  ghost predicate Represents(rows: Relation, t: Table) {
    (forall i | 0 <= i < |rows| :: rows[i].key in t && t[rows[i].key] == EntryOf(rows[i]))
    && (forall k <- t :: HasKey(rows, k))
  }

  lemma {:induction false} AbsRepresents(rows: Relation)
    requires Keyed(rows)
    ensures Represents(rows, Abs(rows))
  {
    if rows != [] {
      AbsRepresents(rows[1..]);
      forall k | k in Abs(rows) ensures HasKey(rows, k) { HasKeyHere(rows, k); }
    }
  }

  lemma HasKeyHere(rows: Relation, k: Key)
    requires rows != [] && (k == rows[0].key || HasKey(rows[1..], k))
    ensures HasKey(rows, k)
  {
    if k == rows[0].key {
      assert rows[0].key == k;
    } else {
      var i :| 0 <= i < |rows[1..]| && rows[1..][i].key == k;
      assert rows[i + 1].key == k;
    }
  }

  lemma AbsIs(rows: Relation, t: Table)
    requires Keyed(rows) && Represents(rows, t)
    ensures Abs(rows) == t
  {
    AbsRepresents(rows);
    forall k ensures k in t <==> k in Abs(rows) {
      if k in t { var i :| 0 <= i < |rows| && rows[i].key == k; }
      if k in Abs(rows) { var i :| 0 <= i < |rows| && rows[i].key == k; }
    }
    forall k | k in t ensures t[k] == Abs(rows)[k] {
      var i :| 0 <= i < |rows| && rows[i].key == k;
    }
  }

  lemma AbsOf(rows: Relation)
    requires Keyed(rows)
    ensures forall i | 0 <= i < |rows| :: rows[i].key in Abs(rows) && Abs(rows)[rows[i].key] == EntryOf(rows[i])
    ensures forall k <- Abs(rows) :: Find(rows, k) >= 0
    ensures forall k :: Find(rows, k) >= 0 ==> k in Abs(rows)
  {
    AbsRepresents(rows);
    forall k | k in Abs(rows) ensures Find(rows, k) >= 0 {
      assert HasKey(rows, k);
    }
  }

  lemma {:induction false} AbsSize(rows: Relation)
    requires Keyed(rows)
    ensures |Abs(rows)| == |rows|
  {
    if rows != [] {
      AbsSize(rows[1..]);
      AbsOf(rows[1..]);
      assert rows[0].key !in Abs(rows[1..]);
    }
  }

  /** What SELECT ... WHERE key = k finds is what the map holds at `k`. */
  lemma AbsAt(rows: Relation, k: Key)
    requires Valid(rows)
    ensures Find(rows, k) < 0 <==> k !in Abs(rows)
    ensures Find(rows, k) >= 0 ==> Abs(rows)[k] == EntryOf(rows[Find(rows, k)]) && StampOk(rows[Find(rows, k)])
  {
    AbsOf(rows);
  }

  lemma ReleaseKeeps(rows: Relation, keep: Row -> bool, k: Key, token: string)
    requires Valid(rows)
    requires forall r :: keep(r) == !(r.key == k && r.status == PENDING_STATUS && r.reservation == token)
    ensures Valid(Where(rows, keep))
    ensures Abs(Where(rows, keep)) == ReleaseRows(Abs(rows), k, token)
  {
    AbsOf(rows);
    AbsOfWhere(rows, keep, ReleaseRows(Abs(rows), k, token));
  }

  lemma CutoffDecides(r: Row, cutoff: string, ttl: int, now: int)
    requires StampOk(r) && T.Written(cutoff, now - ttl)
    ensures !T.Before(r.createdAt, cutoff) <==> !Expired(EntryOf(r), ttl, now)
  {
    hide T.Written, T.Writable;
    T.ColumnOrder(r.createdAt, StampOf(r), cutoff, now - ttl);
  }

  lemma PruneKeeps(rows: Relation, keep: Row -> bool, cutoff: string, ttl: int, now: int)
    requires Valid(rows) && T.Written(cutoff, now - ttl)
    requires forall r :: keep(r) == !T.Before(r.createdAt, cutoff)
    ensures Valid(Where(rows, keep))
    ensures Abs(Where(rows, keep)) == PruneRows(Abs(rows), ttl, now)
  {
    AbsRepresents(rows);
    var t := PruneRows(Abs(rows), ttl, now);
    forall i | 0 <= i < |rows| ensures rows[i].key in t <==> keep(rows[i]) {
      CutoffDecides(rows[i], cutoff, ttl, now);
    }
    AbsOfWhere(rows, keep, t);
  }

  lemma FreshStamp(r: Row, now: int)
    requires T.Written(r.createdAt, now)
    ensures StampOk(r) && StampOf(r) == now
  {
    T.ColumnOrder(r.createdAt, now, r.createdAt, StampOf(r));
  }

  lemma UpsertRepresents(rows: Relation, r: Row)
    requires Keyed(rows)
    ensures Keyed(Upsert(rows, r))
    ensures Abs(Upsert(rows, r)) == Abs(rows)[r.key := EntryOf(r)]
  {
    var after, t := Upsert(rows, r), Abs(rows)[r.key := EntryOf(r)];
    var i := Find(rows, r.key);
    AbsRepresents(rows);
    forall k | k in t ensures HasKey(after, k) {
      if k == r.key {
        assert after[if i < 0 then |rows| else i].key == k;
      } else {
        var j :| 0 <= j < |rows| && rows[j].key == k;
        assert after[j].key == k;
      }
    }
    AbsIs(after, t);
  }

  lemma UpsertIsUpdate(rows: Relation, r: Row, now: int)
    requires Valid(rows) && T.Written(r.createdAt, now)
    ensures Valid(Upsert(rows, r))
    ensures StampOf(r) == now
    ensures Abs(Upsert(rows, r)) == Abs(rows)[r.key := EntryOf(r)]
  {
    hide T.Written, T.Writable;
    FreshStamp(r, now);
    UpsertRepresents(rows, r);
  }

  lemma {:induction false} WhereSubset(rows: Relation, keep: Row -> bool, r: Row)
    ensures r in Where(rows, keep) <==> r in rows && keep(r)
  {
    if rows != [] { WhereSubset(rows[1..], keep, r); }
  }

  lemma {:induction false} WhereKeyed(rows: Relation, keep: Row -> bool)
    requires Keyed(rows)
    ensures Keyed(Where(rows, keep))
  {
    if rows != [] {
      WhereKeyed(rows[1..], keep);
      var rest := Where(rows[1..], keep);
      forall j | 0 <= j < |rest| ensures rest[j].key != rows[0].key {
        WhereSubset(rows[1..], keep, rest[j]);
      }
    }
  }

  lemma WhereEntries(rows: Relation, keep: Row -> bool, t: Table, j: nat)
    requires Keyed(rows) && t.Keys <= Abs(rows).Keys && forall k <- t :: t[k] == Abs(rows)[k]
    requires forall i | 0 <= i < |rows| :: rows[i].key in t <==> keep(rows[i])
    requires j < |Where(rows, keep)|
    ensures var r := Where(rows, keep)[j]; r.key in t && t[r.key] == EntryOf(r)
  {
    var r := Where(rows, keep)[j];
    WhereSubset(rows, keep, r);
    AbsRepresents(rows);
    var i :| 0 <= i < |rows| && rows[i] == r;
  }

  lemma WhereKeys(rows: Relation, keep: Row -> bool, t: Table, k: Key)
    requires Keyed(rows) && k in t && t.Keys <= Abs(rows).Keys
    requires forall i | 0 <= i < |rows| :: rows[i].key in t <==> keep(rows[i])
    ensures HasKey(Where(rows, keep), k)
  {
    AbsRepresents(rows);
    assert HasKey(rows, k);
    var i :| 0 <= i < |rows| && rows[i].key == k;
    WhereSubset(rows, keep, rows[i]);
  }

  /** Deleting rows restricts the map to the keys whose row survives. */
  lemma AbsOfWhere(rows: Relation, keep: Row -> bool, t: Table)
    requires Valid(rows)
    requires t.Keys <= Abs(rows).Keys && forall k <- t :: t[k] == Abs(rows)[k]
    requires forall i | 0 <= i < |rows| :: rows[i].key in t <==> keep(rows[i])
    ensures Valid(Where(rows, keep))
    ensures Abs(Where(rows, keep)) == t
  {
    var after := Where(rows, keep);
    WhereKeyed(rows, keep);
    WhereStamped(rows, keep);
    forall j | 0 <= j < |after| ensures after[j].key in t && t[after[j].key] == EntryOf(after[j]) {
      WhereEntries(rows, keep, t, j);
    }
    forall k | k in t ensures HasKey(after, k) { WhereKeys(rows, keep, t, k); }
    AbsIs(after, t);
  }

  lemma WhereStamped(rows: Relation, keep: Row -> bool)
    requires Stamped(rows)
    ensures Stamped(Where(rows, keep))
  {
    var after := Where(rows, keep);
    forall j | 0 <= j < |after| ensures StampOk(after[j]) {
      WhereSubset(rows, keep, after[j]);
      var i :| 0 <= i < |rows| && rows[i] == after[j];
    }
  }
}
