/** The document store: every row is a payload with a few of its fields copied into index
    columns as text. Lists read the columns; they must answer as a scan of the payloads
    would, although rows written before the columns existed have them blank. */
module StateStore {
  import opened Timestamps
  import opened Wrappers

  datatype Status =
    | Draft | Quoted | Authorized | Captured | Fulfilled | Completed | Reversed | Expired
    | Trialing | Active | Paused | PastDue | Canceled

  /** What the lists look at: a transaction is due when its quote expires, a subscription
      when it is next charged, and then only with a payment instrument. */
  datatype Doc = Doc(tenant: string, status: Status, createdAt: int, dueAt: Option<int>, payment: bool)

  datatype Columns = Columns(tenant: string, status: string, createdAt: string, dueAt: string, payment: string)

  datatype Row = Row(payload: Doc, cols: Columns)

  type Rows = map<string, Row>

  function WireName(s: Status): string {
    match s
    case Draft => "draft"
    case Quoted => "quoted"
    case Authorized => "authorized"
    case Captured => "captured"
    case Fulfilled => "fulfilled"
    case Completed => "completed"
    case Reversed => "reversed"
    case Expired => "expired"
    case Trialing => "trialing"
    case Active => "active"
    case Paused => "paused"
    case PastDue => "past_due"
    case Canceled => "canceled"
  }

  function StatusNamed(s: string): Option<Status> {
    if s == "draft" then Some(Draft)
    else if s == "quoted" then Some(Quoted)
    else if s == "authorized" then Some(Authorized)
    else if s == "captured" then Some(Captured)
    else if s == "fulfilled" then Some(Fulfilled)
    else if s == "completed" then Some(Completed)
    else if s == "reversed" then Some(Reversed)
    else if s == "expired" then Some(Expired)
    else if s == "trialing" then Some(Trialing)
    else if s == "active" then Some(Active)
    else if s == "paused" then Some(Paused)
    else if s == "past_due" then Some(PastDue)
    else if s == "canceled" then Some(Canceled)
    else None
  }

  lemma WireNameRoundTrip(s: Status)
    ensures StatusNamed(WireName(s)) == Some(s)
  {
  }

  predicate Storable(d: Doc) {
    0 <= d.createdAt && Writable(d.createdAt)
    && (d.dueAt.Some? ==> 0 <= d.dueAt.value && Writable(d.dueAt.value))
  }

  /** The columns say what the payload says. */
  ghost predicate Describes(c: Columns, d: Doc) {
    c.tenant == d.tenant && c.status == WireName(d.status) && Written(c.createdAt, d.createdAt)
    && (if d.dueAt.Some? then Written(c.dueAt, d.dueAt.value) else c.dueAt == "")
    && c.payment == (if d.payment then "1" else "0")
  }

  predicate Legacy(r: Row) { r.cols.tenant == "" }

  ghost predicate RowOk(r: Row) { Storable(r.payload) && (Legacy(r) || Describes(r.cols, r.payload)) }

  ghost predicate AllOk(rows: Rows) {
    forall id <- rows :: RowOk(rows[id])
  }

  function Payloads(rows: Rows): map<string, Doc> { map id | id in rows :: rows[id].payload }

  lemma WriteKeepsOk(rows: Rows, id: string, r: Row)
    requires AllOk(rows) && RowOk(r)
    ensures AllOk(rows[id := r]) && Payloads(rows[id := r]) == Payloads(rows)[id := r.payload]
  {
  }

  // ---- what the lists ask --------------------------------------------------------

  datatype DueQuery = DueQuery(statuses: set<Status>, needsPayment: bool)

  const EXPIRY: DueQuery := DueQuery({Draft, Quoted}, false)
  const RENEWAL: DueQuery := DueQuery({Active, Trialing}, true)

  predicate IsDue(q: DueQuery, d: Doc, now: int) {
    d.status in q.statuses && d.dueAt.Some? && d.dueAt.value <= now && (q.needsPayment ==> d.payment)
  }

  predicate IsDueByColumns(q: DueQuery, c: Columns, now: string) {
    (exists s <- q.statuses :: c.status == WireName(s))
    && c.dueAt != "" && AtOrBefore(c.dueAt, now) && (q.needsPayment ==> c.payment == "1")
  }

  predicate Matches(d: Doc, tenant: string, filter: Option<Status>) {
    d.tenant == tenant && (filter.Some? ==> d.status == filter.value)
  }

  predicate MatchesByColumns(c: Columns, tenant: string, filter: Option<Status>) {
    c.tenant == tenant && (filter.Some? ==> c.status == WireName(filter.value))
  }

  lemma ColumnsDecideDue(q: DueQuery, r: Row, now: int, nowText: string)
    requires Describes(r.cols, r.payload) && Written(nowText, now)
    ensures IsDueByColumns(q, r.cols, nowText) <==> IsDue(q, r.payload, now)
  {
    WireNameRoundTrip(r.payload.status);
    forall s | s in q.statuses ensures StatusNamed(WireName(s)) == Some(s) { WireNameRoundTrip(s); }
    if r.payload.dueAt.Some? { ColumnOrder(r.cols.dueAt, r.payload.dueAt.value, nowText, now); }
  }

  function DueByColumns(rows: Rows, q: DueQuery, now: string): set<string> {
    set id | id in rows && IsDueByColumns(q, rows[id].cols, now)
  }

  function DueByScan(docs: map<string, Doc>, q: DueQuery, now: int): set<string> {
    set id | id in docs && IsDue(q, docs[id], now)
  }

  lemma IndexDecidesDue(rows: Rows, q: DueQuery, now: int, nowText: string)
    requires AllOk(rows) && Written(nowText, now) && forall id <- rows :: !Legacy(rows[id])
    ensures DueByColumns(rows, q, nowText) == DueByScan(Payloads(rows), q, now)
  {
    forall id | id in rows ensures IsDueByColumns(q, rows[id].cols, nowText) <==> IsDue(q, rows[id].payload, now) {
      assert RowOk(rows[id]);
      ColumnsDecideDue(q, rows[id], now, nowText);
    }
  }

  /** `WHERE state IN ('draft', 'quoted') AND quote_expires_at != '' AND quote_expires_at <= ?` */
  predicate ExpirySelects(c: Columns, now: string) {
    (c.status == "draft" || c.status == "quoted") && c.dueAt != "" && AtOrBefore(c.dueAt, now)
  }

  /** `WHERE status IN ('active', 'trialing') AND payment_present = 1 AND ...` */
  predicate RenewalSelects(c: Columns, now: string) {
    (c.status == "active" || c.status == "trialing") && c.payment == "1"
    && c.dueAt != "" && AtOrBefore(c.dueAt, now)
  }

  lemma SweeperStatements(c: Columns, now: string)
    ensures IsDueByColumns(EXPIRY, c, now) <==> ExpirySelects(c, now)
    ensures IsDueByColumns(RENEWAL, c, now) <==> RenewalSelects(c, now)
  {
    assert forall s <- EXPIRY.statuses :: WireName(s) == "draft" || WireName(s) == "quoted";
    assert forall s <- RENEWAL.statuses :: WireName(s) == "active" || WireName(s) == "trialing";
    assert Draft in EXPIRY.statuses && Quoted in EXPIRY.statuses;
    assert Active in RENEWAL.statuses && Trialing in RENEWAL.statuses;
  }

  /** Both sweepers read the index as they would the payloads: the expiry statement selects
      the drafts and quotes past their time, the renewal statement the active and trialing
      subscriptions that are due and can be charged. */
  lemma SweepersReadTheIndex(rows: Rows, now: int, nowText: string)
    requires AllOk(rows) && Written(nowText, now) && forall id <- rows :: !Legacy(rows[id])
    ensures DueByColumns(rows, EXPIRY, nowText) == DueByScan(Payloads(rows), EXPIRY, now)
    ensures DueByColumns(rows, RENEWAL, nowText) == DueByScan(Payloads(rows), RENEWAL, now)
    ensures forall id <- rows ::
              var d := rows[id].payload;
              (ExpirySelects(rows[id].cols, nowText)
               <==> (d.status == Draft || d.status == Quoted) && d.dueAt.Some? && d.dueAt.value <= now)
              && (RenewalSelects(rows[id].cols, nowText)
                  <==> (d.status == Active || d.status == Trialing) && d.payment
                       && d.dueAt.Some? && d.dueAt.value <= now)
  {
    IndexDecidesDue(rows, EXPIRY, now, nowText);
    IndexDecidesDue(rows, RENEWAL, now, nowText);
    forall id | id in rows
      ensures ExpirySelects(rows[id].cols, nowText) <==> IsDue(EXPIRY, rows[id].payload, now)
      ensures RenewalSelects(rows[id].cols, nowText) <==> IsDue(RENEWAL, rows[id].payload, now)
    {
      assert RowOk(rows[id]);
      SweeperStatements(rows[id].cols, nowText);
      ColumnsDecideDue(EXPIRY, rows[id], now, nowText);
      ColumnsDecideDue(RENEWAL, rows[id], now, nowText);
    }
  }

  lemma ColumnsDecideMatch(r: Row, tenant: string, filter: Option<Status>)
    requires Describes(r.cols, r.payload)
    ensures MatchesByColumns(r.cols, tenant, filter) <==> Matches(r.payload, tenant, filter)
  {
    WireNameRoundTrip(r.payload.status);
    if filter.Some? { WireNameRoundTrip(filter.value); }
  }

  ghost predicate Distinct(ids: seq<string>) { forall i, j | 0 <= i < j < |ids| :: ids[i] != ids[j] }

  /** The newest `limit` of `among`, newest first; ties may fall either way. */
  ghost predicate IsNewest(rows: Rows, among: set<string>, limit: nat, page: seq<string>) {
    Distinct(page) && |page| <= limit
    && (forall id <- page :: id in among && id in rows)
    && (forall i, j | 0 <= i < j < |page| :: rows[page[i]].payload.createdAt >= rows[page[j]].payload.createdAt)
    && (forall id | id in among && id in rows && id !in page ::
          |page| == limit && forall p <- page :: rows[p].payload.createdAt >= rows[id].payload.createdAt)
  }

  /** What `WHERE tenant_id = ? ... ORDER BY created_at DESC LIMIT ?` returns: the same, as
      read off the text columns. */
  ghost predicate IsNewestByColumns(rows: Rows, tenant: string, filter: Option<Status>, limit: nat, hits: seq<string>) {
    Distinct(hits) && |hits| <= limit
    && (forall id <- hits :: id in rows && MatchesByColumns(rows[id].cols, tenant, filter))
    && (forall i, j | 0 <= i < j < |hits| :: !Before(rows[hits[i]].cols.createdAt, rows[hits[j]].cols.createdAt))
    && (forall id <- rows | MatchesByColumns(rows[id].cols, tenant, filter) && id !in hits ::
          |hits| == limit && forall h <- hits :: !Before(rows[h].cols.createdAt, rows[id].cols.createdAt))
  }

  function Matching(rows: Rows, tenant: string, filter: Option<Status>): set<string> {
    set id | id in rows && Matches(rows[id].payload, tenant, filter)
  }

  /** The matching rows whose columns were filled in. */
  function Indexed(rows: Rows, tenant: string, filter: Option<Status>): set<string> {
    set id | id in rows && !Legacy(rows[id]) && Matches(rows[id].payload, tenant, filter)
  }

  lemma CreatedOrder(a: Row, b: Row)
    requires Describes(a.cols, a.payload) && Describes(b.cols, b.payload)
    ensures Before(a.cols.createdAt, b.cols.createdAt) <==> a.payload.createdAt < b.payload.createdAt
  {
    ColumnOrder(a.cols.createdAt, a.payload.createdAt, b.cols.createdAt, b.payload.createdAt);
  }

  lemma HitIsIndexed(rows: Rows, tenant: string, filter: Option<Status>, id: string)
    requires AllOk(rows) && tenant != "" && id in rows
    ensures MatchesByColumns(rows[id].cols, tenant, filter) <==> id in Indexed(rows, tenant, filter)
  {
    if !Legacy(rows[id]) { ColumnsDecideMatch(rows[id], tenant, filter); }
  }

  /** For a named tenant the indexed query sees exactly the filled-in rows, in time order. */
  lemma HitsAreNewestIndexed(rows: Rows, tenant: string, filter: Option<Status>, limit: nat, hits: seq<string>)
    requires AllOk(rows) && tenant != "" && IsNewestByColumns(rows, tenant, filter, limit, hits)
    ensures IsNewest(rows, Indexed(rows, tenant, filter), limit, hits)
  {
    forall id | id in rows
      ensures MatchesByColumns(rows[id].cols, tenant, filter) <==> id in Indexed(rows, tenant, filter)
    {
      HitIsIndexed(rows, tenant, filter, id);
    }
    forall a, b | a in Indexed(rows, tenant, filter) && b in Indexed(rows, tenant, filter)
      ensures Before(rows[a].cols.createdAt, rows[b].cols.createdAt)
              <==> rows[a].payload.createdAt < rows[b].payload.createdAt
    {
      CreatedOrder(rows[a], rows[b]);
    }
  }

  lemma Inserted(sorted: seq<string>, k: nat, id: string)
    requires Distinct(sorted) && id !in sorted && k <= |sorted|
    ensures var r := sorted[..k] + [id] + sorted[k..];
            Distinct(r) && forall x :: x in r <==> x == id || x in sorted
  {
    assert sorted == sorted[..k] + sorted[k..];
  }

  function SetOf(ids: seq<string>): set<string> { set id | id in ids }

  lemma AllIndexed(rows: Rows, tenant: string, filter: Option<Status>)
    requires forall id <- rows :: !Legacy(rows[id])
    ensures Indexed(rows, tenant, filter) == Matching(rows, tenant, filter)
  {
  }

  /** A sorted page of exactly the hits is the newest of the filled-in rows. */
  lemma HitsSorted(rows: Rows, tenant: string, filter: Option<Status>, limit: nat, hits: seq<string>, page: seq<string>)
    requires IsNewest(rows, Indexed(rows, tenant, filter), limit, hits)
    requires IsNewest(rows, SetOf(hits), limit, page) && |page| == |hits|
    requires forall id :: id in page <==> id in hits
    ensures IsNewest(rows, Indexed(rows, tenant, filter), limit, page)
  {
  }

  /** With room left after the hits, the merged list is every matching row. */
  lemma MergedAll(rows: Rows, tenant: string, filter: Option<Status>, limit: nat, hits: seq<string>, all: seq<string>)
    requires IsNewest(rows, Indexed(rows, tenant, filter), limit, hits) && |hits| < limit
    requires forall id :: id in all <==> id in hits || id in Matching(rows, tenant, filter)
    ensures SetOf(all) == Matching(rows, tenant, filter)
  {
  }

  method IndexColumns(d: Doc) returns (c: Columns)
    requires Storable(d)
    ensures Describes(c, d)
  {
    c := Columns(d.tenant, WireName(d.status), Format(d.createdAt),
                 if d.dueAt.Some? then Format(d.dueAt.value) else "",
                 if d.payment then "1" else "0");
  }

  class JsonStore {
    var rows: Rows

    constructor ()
      ensures rows == map[]
    {
      rows := map[];
    }

    /** One upsert writes payload and columns together. */
    method Insert(id: string, d: Doc)
      requires AllOk(rows) && Storable(d)
      modifies this
      ensures AllOk(rows) && id in rows && Describes(rows[id].cols, d)
      ensures Payloads(rows) == Payloads(old(rows))[id := d]
      ensures forall k | k != id :: (k in rows <==> k in old(rows)) && (k in rows ==> rows[k] == old(rows)[k])
    {
      var cols := IndexColumns(d);
      WriteKeepsOk(rows, id, Row(d, cols));
      rows := rows[id := Row(d, cols)];
    }

    method Get(id: string) returns (d: Option<Doc>)
      ensures d == if id in Payloads(rows) then Some(Payloads(rows)[id]) else None
    {
      d := if id in rows then Some(rows[id].payload) else None;
    }

    /** One transaction reads, changes and rewrites the row; a row with blank columns comes
        out with its columns filled in. */
    method Update(id: string, f: Doc -> Doc) returns (r: Option<Doc>)
      requires AllOk(rows) && forall d | Storable(d) :: Storable(f(d))
      modifies this
      ensures AllOk(rows)
      ensures id !in old(rows) ==> r == None && rows == old(rows)
      ensures id in old(rows) ==>
                id in rows && r == Some(f(old(rows)[id].payload)) && Describes(rows[id].cols, r.value)
                && Payloads(rows) == Payloads(old(rows))[id := r.value]
      ensures forall k | k != id :: (k in rows <==> k in old(rows)) && (k in rows ==> rows[k] == old(rows)[k])
    {
      if id !in rows { return None; }
      var d := f(rows[id].payload);
      var cols := IndexColumns(d);
      WriteKeepsOk(rows, id, Row(d, cols));
      rows := rows[id := Row(d, cols)];
      r := Some(d);
    }

    predicate HasLegacy()
      reads this
    {
      exists id :: id in rows && Legacy(rows[id])
    }

    /** The due lists agree with a scan of the payloads, by either path. */
    method ListDue(q: DueQuery, now: int, nowText: string) returns (due: set<string>)
      requires AllOk(rows) && Written(nowText, now)
      ensures due == DueByScan(Payloads(rows), q, now)
      ensures forall id :: id in due <==>
                id in rows && rows[id].payload.status in q.statuses
                && rows[id].payload.dueAt.Some? && rows[id].payload.dueAt.value <= now
                && (q.needsPayment ==> rows[id].payload.payment)
    {
      if HasLegacy() {
        return DueByScan(Payloads(rows), q, now);
      }
      IndexDecidesDue(rows, q, now, nowText);
      due := DueByColumns(rows, q, nowText);
    }

    /** Adds the matching rows of a scan that the index did not return. */
    method MergeLegacy(indexed: seq<string>, scanned: seq<string>, tenant: string, filter: Option<Status>)
      returns (merged: seq<string>)
      requires Distinct(indexed) && forall id <- scanned :: id in rows
      ensures Distinct(merged) && indexed <= merged
      ensures forall id :: id in merged <==>
                id in indexed || (id in scanned && Matches(rows[id].payload, tenant, filter))
    {
      merged := indexed;
      var seen := set id | id in indexed;
      var n := 0;
      while n < |scanned|
        invariant n <= |scanned| && indexed <= merged && Distinct(merged)
        invariant forall id :: id in seen <==> id in merged
        invariant forall id :: id in merged <==>
          id in indexed || (id in scanned[..n] && Matches(rows[id].payload, tenant, filter))
      {
        var id := scanned[n];
        if Matches(rows[id].payload, tenant, filter) && id !in seen {
          seen := seen + {id};
          merged := merged + [id];
        }
        n := n + 1;
      }
    }

    /** Puts one row where it belongs in a list sorted newest first. */
    method Place(id: string, sorted: seq<string>) returns (r: seq<string>)
      requires id in rows && id !in sorted && Distinct(sorted) && forall x <- sorted :: x in rows
      requires forall i, j | 0 <= i < j < |sorted| ::
                 rows[sorted[i]].payload.createdAt >= rows[sorted[j]].payload.createdAt
      ensures |r| == |sorted| + 1 && Distinct(r) && forall x :: x in r <==> x == id || x in sorted
      ensures forall i, j | 0 <= i < j < |r| :: rows[r[i]].payload.createdAt >= rows[r[j]].payload.createdAt
    {
      var k := 0;
      while k < |sorted| && rows[sorted[k]].payload.createdAt >= rows[id].payload.createdAt
        invariant k <= |sorted|
        invariant forall i | 0 <= i < k :: rows[sorted[i]].payload.createdAt >= rows[id].payload.createdAt
      {
        k := k + 1;
      }
      r := sorted[..k] + [id] + sorted[k..];
      Inserted(sorted, k, id);
    }

    method Sort(ids: seq<string>) returns (all: seq<string>)
      requires Distinct(ids) && forall id <- ids :: id in rows
      ensures |all| == |ids| && Distinct(all) && forall id :: id in all <==> id in ids
      ensures forall id <- all :: id in rows
      ensures forall i, j | 0 <= i < j < |all| :: rows[all[i]].payload.createdAt >= rows[all[j]].payload.createdAt
    {
      all := [];
      var n := 0;
      while n < |ids|
        invariant n == |all| <= |ids| && Distinct(all)
        invariant forall id :: id in all <==> id in ids[..n]
        invariant forall id <- all :: id in rows
        invariant forall i, j | 0 <= i < j < |all| :: rows[all[i]].payload.createdAt >= rows[all[j]].payload.createdAt
      {
        all := Place(ids[n], all);
        n := n + 1;
      }
    }

    method SortAndTruncate(ids: seq<string>, limit: nat) returns (page: seq<string>)
      requires Distinct(ids) && forall id <- ids :: id in rows
      ensures IsNewest(rows, SetOf(ids), limit, page)
      ensures |page| == (if |ids| <= limit then |ids| else limit)
      ensures |ids| <= limit ==> forall id :: id in page <==> id in ids
    {
      var all := Sort(ids);
      assert forall id <- all :: id in SetOf(ids);
      page := if |all| <= limit then all else all[..limit];
    }

    /** `hits` is what the indexed statement returned and `scanned` every row, in any order. */
    method ListForTenant(tenant: string, limit: nat, filter: Option<Status>, hits: seq<string>, scanned: seq<string>)
      returns (page: seq<string>)
      requires AllOk(rows) && tenant != ""
      requires IsNewestByColumns(rows, tenant, filter, limit, hits)
      requires forall id :: id in scanned <==> id in rows
      ensures IsTenantList(rows, tenant, filter, limit, hits, page)
    {
      HitsAreNewestIndexed(rows, tenant, filter, limit, hits);
      var all := hits;
      if |hits| < limit && HasLegacy() {
        all := MergeLegacy(hits, scanned, tenant, filter);
        MergedAll(rows, tenant, filter, limit, hits, all);
      }
      page := SortAndTruncate(all, limit);
      if all == hits {
        HitsSorted(rows, tenant, filter, limit, hits, page);
        if !HasLegacy() { AllIndexed(rows, tenant, filter); }
      }
    }
  }

  /** What a tenant's list comes back as, given what the indexed statement returned. */
  ghost predicate IsTenantList(rows: Rows, tenant: string, filter: Option<Status>, limit: nat,
        hits: seq<string>, page: seq<string>)
  {
    IsNewestByColumns(rows, tenant, filter, limit, hits)
    && IsNewest(rows, if |hits| < limit then Matching(rows, tenant, filter) else Indexed(rows, tenant, filter),
                limit, page)
    && (|hits| == limit ==> forall id :: id in page <==> id in hits)
  }

  /** A list shows rows of that tenant and status only, once each and newest first; and
      without blank rows a matching row is left out only of a full page, by none older. */
  lemma TenantListShows(rows: Rows, tenant: string, filter: Option<Status>, limit: nat,
        hits: seq<string>, page: seq<string>)
    requires IsTenantList(rows, tenant, filter, limit, hits, page)
    ensures |page| <= limit && forall i, j | 0 <= i < j < |page| :: page[i] != page[j]
    ensures forall id <- page ::
              id in rows && rows[id].payload.tenant == tenant
              && (filter.Some? ==> rows[id].payload.status == filter.value)
    ensures forall i, j | 0 <= i < j < |page| ::
              rows[page[i]].payload.createdAt >= rows[page[j]].payload.createdAt
    ensures (forall id <- rows :: !Legacy(rows[id])) ==>
              forall id <- rows | rows[id].payload.tenant == tenant && id !in page
                                  && (filter.Some? ==> rows[id].payload.status == filter.value) ::
                |page| == limit && forall p <- page :: rows[p].payload.createdAt >= rows[id].payload.createdAt
  {
  }

  /** A full page of part of the rows is a page of the whole exactly when nothing in the
      rest is newer than a row on it. */
  lemma FullPageOfPart(rows: Rows, part: set<string>, whole: set<string>, limit: nat, page: seq<string>)
    requires part <= whole <= rows.Keys && IsNewest(rows, part, limit, page) && |page| == limit
    ensures IsNewest(rows, whole, limit, page)
      <==> forall id, p | id in whole - part && p in page :: rows[p].payload.createdAt >= rows[id].payload.createdAt
  {
  }

  /** Blank rows are only looked for when the index did not fill the page. So the list is
      the newest of everything that matches exactly when it did not, or no blank row that
      matches is newer than a row the index returned. */
  lemma TenantListIsScan(rows: Rows, tenant: string, filter: Option<Status>, limit: nat,
        hits: seq<string>, page: seq<string>)
    requires tenant != "" && IsTenantList(rows, tenant, filter, limit, hits, page)
    ensures IsNewest(rows, Matching(rows, tenant, filter), limit, page)
      <==> |hits| < limit
           || forall id, h | id in Matching(rows, tenant, filter) && Legacy(rows[id]) && h in hits ::
                rows[h].payload.createdAt >= rows[id].payload.createdAt
  {
    var part, whole := Indexed(rows, tenant, filter), Matching(rows, tenant, filter);
    if |hits| == limit {
      SameSize(hits, page);
      FullPageOfPart(rows, part, whole, limit, page);
      assert forall id :: id in whole - part <==> id in whole && Legacy(rows[id]);
    }
  }

  lemma SameSize(a: seq<string>, b: seq<string>)
    requires Distinct(a) && Distinct(b) && forall id :: id in a <==> id in b
    ensures |a| == |b|
  {
    SetSize(a);
    SetSize(b);
    assert SetOf(a) == SetOf(b);
  }

  lemma {:induction false} SetSize(a: seq<string>)
    requires Distinct(a)
    ensures |SetOf(a)| == |a|
  {
    if a == [] {
      assert SetOf(a) == {};
    } else {
      SetSize(a[1..]);
      assert SetOf(a) == SetOf(a[1..]) + {a[0]};
    }
  }

  lemma FilledRow(d: Doc) returns (r: Row)
    requires Storable(d)
    ensures r.payload == d && r.cols.tenant == d.tenant && RowOk(r)
  {
    r := Row(d, Columns(d.tenant, WireName(d.status), Format(d.createdAt),
                        if d.dueAt.Some? then Format(d.dueAt.value) else "", if d.payment then "1" else "0"));
  }

  lemma BlankRow(d: Doc) returns (r: Row)
    requires Storable(d)
    ensures r.payload == d && r.cols.tenant == "" && RowOk(r)
  {
    r := Row(d, Columns("", "", "", "", ""));
  }

  lemma TwoRows(filled: Row, blank: Row) returns (rows: Rows)
    requires RowOk(filled) && RowOk(blank)
    ensures AllOk(rows) && rows == map["filled" := filled, "blank" := blank]
  {
    WriteKeepsOk(map[], "filled", filled);
    WriteKeepsOk(map["filled" := filled], "blank", blank);
    rows := map["filled" := filled, "blank" := blank];
    assert rows == map["filled" := filled]["blank" := blank];
  }

  lemma OneHit(rows: Rows, filled: Row, blank: Row, tenant: string)
    requires rows == map["filled" := filled, "blank" := blank]
    requires tenant != "" && filled.cols.tenant == tenant == filled.payload.tenant
    requires blank.cols.tenant == "" && blank.payload.tenant == tenant
    requires blank.payload.createdAt > filled.payload.createdAt
    ensures IsTenantList(rows, tenant, None, 1, ["filled"], ["filled"])
    ensures !IsNewest(rows, Matching(rows, tenant, None), 1, ["filled"])
  {
    var page := ["filled"];
    assert "blank" != "filled" by { assert "blank"[0] != "filled"[0]; }
    assert "blank" in Matching(rows, tenant, None) && "blank" !in page && page[0] in page;
    assert rows[page[0]].payload.createdAt < rows["blank"].payload.createdAt;
  }

  /** One filled-in row of a tenant, a newer blank one, and room for one: the newer row is
      left out of the tenant's list. */
  lemma NewerLegacyRowMissed(tenant: string, t: nat, later: nat) returns (rows: Rows, hits: seq<string>)
    requires tenant != "" && Writable(t) && Writable(later) && t < later
    ensures AllOk(rows) && IsTenantList(rows, tenant, None, 1, hits, hits)
    ensures !IsNewest(rows, Matching(rows, tenant, None), 1, hits)
  {
    var filled := FilledRow(Doc(tenant, Quoted, t, None, false));
    var blank := BlankRow(Doc(tenant, Quoted, later, None, false));
    rows := TwoRows(filled, blank);
    hits := ["filled"];
    OneHit(rows, filled, blank, tenant);
  }
}
