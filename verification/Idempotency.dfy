/** The idempotency store: what each operation answers and what it leaves behind,
    as a function on the table, and the in-memory backend that implements it. */
module Idempotency {

  /** A row belongs to one tenant's key. */
  datatype Key = Key(tenant: string, name: string)

  datatype CachedResponse = CachedResponse(status: nat, body: string)

  /** `reservation` is the fencing token of the claim; a completed row carries none. */
  datatype Entry = Entry(digest: string, response: CachedResponse, createdAt: int, reservation: string)

  type Table = map<Key, Entry>

  const PENDING_STATUS: nat := 0

  datatype ReserveOutcome = Won(token: string) | Replay(response: CachedResponse) | Conflict | InProgress

  datatype LookupOutcome = Miss | Hit(response: CachedResponse) | Mismatch

  function PendingEntry(digest: string, now: int, token: string): Entry {
    Entry(digest, CachedResponse(PENDING_STATUS, ""), now, token)
  }

  predicate Expired(e: Entry, ttl: int, now: int) { now - e.createdAt > ttl }

  predicate Pending(e: Entry) { e.response.status == PENDING_STATUS }

  /** A key is free when nothing recorded for it still binds a new request: no row, a
      row past its TTL, or a claim past its lease. */
  predicate Claimable(t: Table, k: Key, ttl: int, lease: int, now: int) {
    k !in t || Expired(t[k], ttl, now) || (Pending(t[k]) && now - t[k].createdAt > lease)
  }

  function ReserveReply(t: Table, k: Key, digest: string, ttl: int, lease: int, now: int, token: string)
    : ReserveOutcome
  {
    if Claimable(t, k, ttl, lease, now) then Won(token)
    else if Pending(t[k]) then InProgress
    else if t[k].digest == digest then Replay(t[k].response)
    else Conflict
  }

  function ReserveRows(t: Table, k: Key, digest: string, ttl: int, lease: int, now: int, token: string): Table {
    if Claimable(t, k, ttl, lease, now) then t[k := PendingEntry(digest, now, token)] else t
  }

  function LookupReply(t: Table, k: Key, digest: string, ttl: int, now: int): LookupOutcome {
    if k !in t || Expired(t[k], ttl, now) || Pending(t[k]) then Miss
    else if t[k].digest == digest then Hit(t[k].response)
    else Mismatch
  }

  /** A response lands only on the claim it was produced under, or on no row at all. */
  predicate StoreLands(t: Table, k: Key, token: string) { k in t ==> t[k].reservation == token }

  function StoreRows(t: Table, k: Key, digest: string, response: CachedResponse, now: int, token: string): Table {
    if StoreLands(t, k, token) then t[k := Entry(digest, response, now, "")] else t
  }

  function ReleaseRows(t: Table, k: Key, token: string): Table {
    if k in t && Pending(t[k]) && t[k].reservation == token then t - {k} else t
  }

  function PruneRows(t: Table, ttl: int, now: int): Table {
    map k | k in t && !Expired(t[k], ttl, now) :: t[k]
  }

  // ---- one call, either backend --------------------------------------------------

  datatype Call =
    | CallReserve(key: Key, digest: string, at: int, lease: int, token: string)
    | CallLookup(key: Key, digest: string, at: int)
    | CallStore(key: Key, digest: string, response: CachedResponse, at: int, token: string)
    | CallRelease(key: Key, token: string)
    | CallPrune(at: int)

  datatype Reply =
    | Reserved(reserve: ReserveOutcome)
    | Looked(lookup: LookupOutcome)
    | Stored(landed: bool)
    | Released
    | Pruned(removed: int)

  function Answer(t: Table, ttl: int, c: Call): Reply {
    match c
    case CallReserve(k, digest, at, lease, token) =>
      Reserved(ReserveReply(t, k, digest, ttl, lease, at, token))
    case CallLookup(k, digest, at) => Looked(LookupReply(t, k, digest, ttl, at))
    case CallStore(k, _, _, _, token) => Stored(StoreLands(t, k, token))
    case CallRelease(_, _) => Released
    case CallPrune(at) => Pruned(|t| - |PruneRows(t, ttl, at)|)
  }

  function Effect(t: Table, ttl: int, c: Call): Table {
    match c
    case CallReserve(k, digest, at, lease, token) => ReserveRows(t, k, digest, ttl, lease, at, token)
    case CallLookup(_, _, _) => t
    case CallStore(k, digest, response, at, token) => StoreRows(t, k, digest, response, at, token)
    case CallRelease(k, token) => ReleaseRows(t, k, token)
    case CallPrune(at) => PruneRows(t, ttl, at)
  }

  /** The rows left by `calls` on an empty store, and what each call answered. */
  function RowsAfter(calls: seq<Call>, ttl: int): Table {
    if calls == [] then map[]
    else Effect(RowsAfter(calls[..|calls| - 1], ttl), ttl, calls[|calls| - 1])
  }

  function Answers(calls: seq<Call>, ttl: int): seq<Reply> {
    if calls == [] then []
    else
      var before := calls[..|calls| - 1];
      Answers(before, ttl) + [Answer(RowsAfter(before, ttl), ttl, calls[|calls| - 1])]
  }

  // ---- the in-memory backend -----------------------------------------------------

  class MemoryStore {
    var rows: Table
    const ttl: int

    constructor (ttl: int)
      ensures rows == map[] && this.ttl == ttl
    {
      rows := map[];
      this.ttl := ttl;
    }

    method Reserve(k: Key, digest: string, now: int, lease: int, token: string) returns (o: ReserveOutcome)
      modifies this
      ensures rows == ReserveRows(old(rows), k, digest, ttl, lease, now, token)
      ensures o == ReserveReply(old(rows), k, digest, ttl, lease, now, token)
      ensures var bound := k in old(rows) && now - old(rows)[k].createdAt <= ttl;
              var pending := bound && old(rows)[k].response.status == 0;
              (o.Won? <==> !bound || (pending && now - old(rows)[k].createdAt > lease))
              && (o == InProgress <==> pending && now - old(rows)[k].createdAt <= lease)
              && (o.Replay? <==> bound && !pending && old(rows)[k].digest == digest)
              && (o == Conflict <==> bound && !pending && old(rows)[k].digest != digest)
      ensures o.Won? ==> o.token == token && rows == old(rows)[k := Entry(digest, CachedResponse(0, ""), now, token)]
      ensures !o.Won? ==> rows == old(rows)
      ensures o.Replay? ==> o.response == old(rows)[k].response
    {
      if k in rows && now - rows[k].createdAt <= ttl {
        var e := rows[k];
        if e.response.status == PENDING_STATUS {
          if now - e.createdAt > lease {
            rows := rows[k := PendingEntry(digest, now, token)];
            return Won(token);
          }
          return InProgress;
        } else if e.digest == digest {
          return Replay(e.response);
        }
        return Conflict;
      }
      rows := rows[k := PendingEntry(digest, now, token)];
      o := Won(token);
    }

    method Lookup(k: Key, digest: string, now: int) returns (o: LookupOutcome)
      ensures o == LookupReply(rows, k, digest, ttl, now)
      ensures o == Miss <==> k !in rows || now - rows[k].createdAt > ttl || rows[k].response.status == 0
      ensures o.Hit? ==> rows[k].digest == digest && o.response == rows[k].response
      ensures o == Mismatch ==> rows[k].digest != digest
    {
      if k !in rows { return Miss; }
      var e := rows[k];
      if now - e.createdAt > ttl { return Miss; }
      if e.response.status == PENDING_STATUS { return Miss; }
      o := if e.digest == digest then Hit(e.response) else Mismatch;
    }

    method Release(k: Key, token: string)
      modifies this
      ensures rows == ReleaseRows(old(rows), k, token)
      ensures rows == if k in old(rows) && old(rows)[k].response.status == 0 && old(rows)[k].reservation == token
                      then old(rows) - {k} else old(rows)
    {
      if k in rows && rows[k].response.status == PENDING_STATUS && rows[k].reservation == token {
        rows := rows - {k};
      }
    }

    method Store(k: Key, digest: string, response: CachedResponse, now: int, token: string) returns (landed: bool)
      modifies this
      ensures rows == StoreRows(old(rows), k, digest, response, now, token)
      ensures landed == StoreLands(old(rows), k, token)
      ensures landed <==> k !in old(rows) || old(rows)[k].reservation == token
      ensures rows == if landed then old(rows)[k := Entry(digest, response, now, "")] else old(rows)
    {
      landed := if k in rows then rows[k].reservation == token else true;
      if landed {
        rows := rows[k := Entry(digest, response, now, "")];
      }
    }

    /** The sweep keeps a row exactly when a lookup would still consider it. */
    method Prune(now: int) returns (removed: int)
      modifies this
      ensures rows == PruneRows(old(rows), ttl, now)
      ensures removed == |old(rows)| - |rows|
      ensures forall k :: k in rows <==> k in old(rows) && now - old(rows)[k].createdAt <= ttl
      ensures forall k <- rows :: rows[k] == old(rows)[k]
    {
      var cutoff, before := now - ttl, |rows|;
      var rest := rows.Keys;
      while rest != {}
        invariant rest <= rows.Keys <= old(rows).Keys
        invariant forall k <- rows :: rows[k] == old(rows)[k]
        invariant forall k <- rows.Keys - rest :: rows[k].createdAt >= cutoff
        invariant forall k <- old(rows).Keys - rows.Keys :: old(rows)[k].createdAt < cutoff
        decreases rest
      {
        var k :| k in rest;
        if rows[k].createdAt < cutoff { rows := rows - {k}; }
        rest := rest - {k};
      }
      removed := before - |rows|;
    }

    method Do(c: Call) returns (r: Reply)
      modifies this
      ensures rows == Effect(old(rows), ttl, c) && r == Answer(old(rows), ttl, c)
    {
      match c {
        case CallReserve(k, digest, at, lease, token) =>
          var o := Reserve(k, digest, at, lease, token);
          r := Reserved(o);
        case CallLookup(k, digest, at) =>
          var o := Lookup(k, digest, at);
          r := Looked(o);
        case CallStore(k, digest, response, at, token) =>
          var landed := Store(k, digest, response, at, token);
          r := Stored(landed);
        case CallRelease(k, token) =>
          Release(k, token);
          r := Released;
        case CallPrune(at) =>
          var removed := Prune(at);
          r := Pruned(removed);
      }
    }
  }

  // ---- the loser's wait ----------------------------------------------------------

  /** What a poller sees when it wakes: the rows and the clock. */
  datatype Observation = Observation(rows: Table, now: int)

  /** The poll sees an answer that still binds. */
  predicate Decisive(o: Observation, k: Key, ttl: int) {
    k in o.rows && o.now - o.rows[k].createdAt <= ttl && o.rows[k].response.status != 0
  }

  datatype WaitResult = Replayed(response: CachedResponse) | ConflictError | RetryLater

  const MAX_POLLS: nat := 20

  /** A caller told `InProgress` polls twenty times. It answers with the first decisive
      observation, and asks for a retry exactly when every poll missed. */
  method AwaitResult(k: Key, digest: string, ttl: int, polls: seq<Observation>) returns (r: WaitResult)
    requires |polls| == MAX_POLLS
    ensures r == RetryLater <==>
              forall i | 0 <= i < MAX_POLLS :: LookupReply(polls[i].rows, k, digest, ttl, polls[i].now) == Miss
    ensures r != RetryLater ==>
              exists i | 0 <= i < MAX_POLLS ::
                (forall j | 0 <= j < i :: LookupReply(polls[j].rows, k, digest, ttl, polls[j].now) == Miss)
                && LookupReply(polls[i].rows, k, digest, ttl, polls[i].now)
                     == (if r.Replayed? then Hit(r.response) else Mismatch)
    ensures r == RetryLater <==> forall i | 0 <= i < MAX_POLLS :: !Decisive(polls[i], k, ttl)
    ensures r != RetryLater ==>
              exists i | 0 <= i < MAX_POLLS :: Decisive(polls[i], k, ttl)
                && (forall j | 0 <= j < i :: !Decisive(polls[j], k, ttl))
                && (r.Replayed? ==> polls[i].rows[k].digest == digest && polls[i].rows[k].response == r.response)
                && (r == ConflictError ==> polls[i].rows[k].digest != digest)
  {
    var n := 0;
    while n < MAX_POLLS
      invariant n <= MAX_POLLS
      invariant forall j | 0 <= j < n :: LookupReply(polls[j].rows, k, digest, ttl, polls[j].now) == Miss
      invariant forall j | 0 <= j < n :: !Decisive(polls[j], k, ttl)
    {
      assert Decisive(polls[n], k, ttl) <==> LookupReply(polls[n].rows, k, digest, ttl, polls[n].now) != Miss;
      match LookupReply(polls[n].rows, k, digest, ttl, polls[n].now) {
        case Hit(response) => return Replayed(response);
        case Mismatch => return ConflictError;
        case Miss =>
      }
      n := n + 1;
    }
    r := RetryLater;
  }
}
