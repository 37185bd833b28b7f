/** The outbox statements of the SQLite backend compare and sort their timestamp columns as
    text. On columns that were written for the rows' instants they select what the
    in-memory outbox selects. */
module OutboxSql {
  import opened Outbox
  import opened Timestamps
  import opened Wrappers

  /** The two timestamp columns that statements compare. */
  datatype Columns = Columns(nextAt: string, createdAt: string)

  ghost predicate Describe(cols: map<string, Columns>, rows: Rows) {
    cols.Keys == rows.Keys
    && forall id <- rows :: Written(cols[id].nextAt, rows[id].nextAt) && Written(cols[id].createdAt, rows[id].createdAt)
  }

  predicate DueByColumns(d: Delivery, c: Columns, now: string) { Waiting(d) && AtOrBefore(c.nextAt, now) }

  /** `WHERE status IN ('pending','failed') AND next_attempt_at <= ? ORDER BY next_attempt_at
      ASC LIMIT ?`, as read off the text. */
  ghost predicate IsTextBatch(rows: Rows, cols: map<string, Columns>, now: string, limit: nat, batch: seq<string>)
    requires cols.Keys == rows.Keys
  {
    (forall i, j | 0 <= i < j < |batch| :: batch[i] != batch[j])
    && (forall id <- batch :: id in rows && DueByColumns(rows[id], cols[id], now))
    && (forall i, j | 0 <= i < j < |batch| :: AtOrBefore(cols[batch[i]].nextAt, cols[batch[j]].nextAt))
    && |batch| <= limit
    && (forall id <- rows | DueByColumns(rows[id], cols[id], now) && id !in batch ::
          |batch| == limit && forall b <- batch :: AtOrBefore(cols[b].nextAt, cols[id].nextAt))
  }

  lemma NextAtOrder(rows: Rows, cols: map<string, Columns>, a: string, b: string)
    requires Describe(cols, rows) && a in rows && b in rows
    ensures AtOrBefore(cols[a].nextAt, cols[b].nextAt) <==> rows[a].nextAt <= rows[b].nextAt
  {
    ColumnOrder(cols[a].nextAt, rows[a].nextAt, cols[b].nextAt, rows[b].nextAt);
  }

  lemma DueAsText(rows: Rows, cols: map<string, Columns>, now: int, nowText: string, id: string)
    requires Describe(cols, rows) && Written(nowText, now) && id in rows
    ensures DueByColumns(rows[id], cols[id], nowText) <==> Due(rows[id], now)
  {
    ColumnOrder(cols[id].nextAt, rows[id].nextAt, nowText, now);
  }

  /** The columns select and order rows as their instants do. */
  ghost predicate Agree(rows: Rows, cols: map<string, Columns>, now: int, nowText: string)
    requires cols.Keys == rows.Keys
  {
    (forall id <- rows :: DueByColumns(rows[id], cols[id], nowText) <==> Due(rows[id], now))
    && (forall a, b | a in rows && b in rows ::
          AtOrBefore(cols[a].nextAt, cols[b].nextAt) <==> rows[a].nextAt <= rows[b].nextAt)
  }

  lemma TextBatchIsDue(rows: Rows, cols: map<string, Columns>, now: int, nowText: string,
        limit: nat, batch: seq<string>)
    requires cols.Keys == rows.Keys && Agree(rows, cols, now, nowText)
    requires IsTextBatch(rows, cols, nowText, limit, batch)
    ensures IsDueBatch(rows, now, limit, batch)
  {
  }

  lemma DueBatchIsText(rows: Rows, cols: map<string, Columns>, now: int, nowText: string,
        limit: nat, batch: seq<string>)
    requires cols.Keys == rows.Keys && Agree(rows, cols, now, nowText)
    requires IsDueBatch(rows, now, limit, batch)
    ensures IsTextBatch(rows, cols, nowText, limit, batch)
  {
  }

  /** A batch is what the statement may return exactly when it is what the in-memory outbox
      may return. */
  lemma TextBatchIsDueBatch(rows: Rows, cols: map<string, Columns>, now: int, nowText: string,
        limit: nat, batch: seq<string>)
    requires Describe(cols, rows) && Written(nowText, now)
    ensures IsTextBatch(rows, cols, nowText, limit, batch) <==> IsDueBatch(rows, now, limit, batch)
  {
    assert Agree(rows, cols, now, nowText) by {
      forall id | id in rows ensures DueByColumns(rows[id], cols[id], nowText) <==> Due(rows[id], now) {
        DueAsText(rows, cols, now, nowText, id);
      }
      forall a, b | a in rows && b in rows
        ensures AtOrBefore(cols[a].nextAt, cols[b].nextAt) <==> rows[a].nextAt <= rows[b].nextAt
      {
        NextAtOrder(rows, cols, a, b);
      }
    }
    if IsTextBatch(rows, cols, nowText, limit, batch) { TextBatchIsDue(rows, cols, now, nowText, limit, batch); }
    if IsDueBatch(rows, now, limit, batch) { DueBatchIsText(rows, cols, now, nowText, limit, batch); }
  }

  /** `WHERE status = ? AND created_at < ?`. */
  predicate OutdatedByColumns(d: Delivery, c: Columns, status: Status, cutoff: string) {
    d.status == status && Before(c.createdAt, cutoff)
  }

  lemma TextPruneIsPrune(rows: Rows, cols: map<string, Columns>, id: string, status: Status,
        cutoff: int, cutoffText: string)
    requires Describe(cols, rows) && Written(cutoffText, cutoff) && id in rows
    ensures OutdatedByColumns(rows[id], cols[id], status, cutoffText) <==> Outdated(rows[id], status, Some(cutoff))
  {
    ColumnOrder(cols[id].createdAt, rows[id].createdAt, cutoffText, cutoff);
  }
}
