/** Runs of the SQL driver alone: what its table says of the claims of a job. */
module SqlRuns {
  import opened Types
  import opened RowSteps
  import opened JobStore
  import opened StoreInvariant
  import opened SqlTable
  import opened Refinement
  import opened Runs

  /** A table and the last id it has handed out. */
  datatype Database = Database(table: Table, lastId: nat)

  ghost function Next(db: Database, op: Op): Database {
    Database(
      SqlApply(db.table, op, db.lastId),
      if op.Enqueue? && !SqlClashes(db.table, op.rows) then db.lastId + |op.rows| else db.lastId)
  }

  ghost function SqlExec(ops: seq<Op>): Database {
    if ops == [] then Database(map[], 0) else Next(SqlExec(Front(ops)), Last(ops))
  }

  /** What a job's row should tell of its claims: who, since when the current series runs, and the last one. */
  datatype Trace = Trace(claimers: seq<string>, startedAt: Option<Time>, claimedAt: Option<Time>)

  const UNTOUCHED := Trace([], None, None)

  /** The step adds the job. */
  ghost predicate Adds(db: Database, op: Op, id: JobId) {
    op.Enqueue? && !SqlClashes(db.table, op.rows) && db.lastId < id <= db.lastId + |op.rows|
  }

  ghost predicate Resets(db: Database, op: Op, id: JobId) {
    && id in db.table
    && ((op.Retry? && op.id == id) || (op.RetryBatch? && id in op.ids))
    && var s := db.table[id].state; s == Failed || s == Completed || s == Cancelled || s == Retryable
  }

  /**
   A claim is recorded; a scheduled retry and a stale requeue end the series and forget the claim; a manual retry
   forgets everything.
   */
  ghost function Traced(db: Database, op: Op, id: JobId, before: Trace): Trace {
    if Adds(db, op, id) || Resets(db, op, id) then UNTOUCHED
    else if op.Claim? && id in SqlPicked(db.table, op.queue, op.max, op.now) then
      Trace(
        before.claimers + [op.node],
        if before.startedAt.Some? then before.startedAt else Some(op.now),
        Some(op.now))
    else if op.ScheduleRetry? && op.id == id && id in db.table && db.table[id].state == Running then
      before.(startedAt := None, claimedAt := None)
    else if op.RequeueStale? && id in SqlStale(db.table, op.now - op.timeout) then
      before.(startedAt := None, claimedAt := None)
    else before
  }

  ghost function TraceOf(ops: seq<Op>, id: JobId): Trace {
    if ops == [] then UNTOUCHED else Traced(SqlExec(Front(ops)), Last(ops), id, TraceOf(Front(ops), id))
  }

  /** A row keeps the last fifty claimers, and a node only while it runs. */
  ghost predicate Tells(r: Row, trace: Trace) {
    && r.attemptedBy == LastFifty(trace.claimers)
    && r.startedAt == trace.startedAt && r.attemptedAt == trace.claimedAt
    && r.nodeId == (if r.state == Running && trace.claimers != [] then Last(trace.claimers) else "")
  }

  ghost predicate Numbered(db: Database) {
    forall i :: i in db.table ==> 1 <= i <= db.lastId
  }

  // ---------------------------------------------------------------- one step, one job

  lemma {:induction false} InsertTells(t: Table, rows: seq<Row>, lastId: nat, id: JobId)
    requires (forall i :: i in t ==> 1 <= i <= lastId) && forall k :: 0 <= k < |rows| ==> InitialRow(rows[k])
    ensures forall i :: i in SqlInsertAll(t, rows, lastId) ==> 1 <= i <= lastId + |rows|
    ensures
      var u := SqlInsertAll(t, rows, lastId);
      if lastId < id <= lastId + |rows| then id in u && Tells(u[id], UNTOUCHED)
      else (id in u <==> id in t) && (id in u ==> u[id] == t[id])
  {
    hide Tells, InitialRow, SqlInsertRow;
    if rows != [] {
      InsertTells(t, Front(rows), lastId, id);
      assert Last(rows) == rows[|rows| - 1];
      FreshTells(Last(rows), lastId + |rows|);
    }
  }

  lemma FreshTells(r: Row, id: JobId)
    requires InitialRow(r)
    ensures Tells(SqlInsertRow(r, id), UNTOUCHED)
  {}

  lemma ClaimTells(r: Row, trace: Trace, node: string, now: Time)
    requires Tells(r, trace)
    ensures Tells(SqlClaimRow(r, node, now),
              Trace(trace.claimers + [node], if trace.startedAt.Some? then trace.startedAt else Some(now), Some(now)))
  {
    hide SqlPushClaimer, LastFifty;
    PushKeepsLastFifty(trace.claimers, node);
    LastFiftyBound(trace.claimers);
    ClaimersAgreeIff(LastFifty(trace.claimers), node);
  }

  lemma LastFiftyBound(xs: seq<string>)
    ensures |LastFifty(xs)| <= 50
  {}

  lemma OtherTells(r: Row, trace: Trace, text: string, at: Time, now: Time)
    requires Tells(r, trace)
    ensures Tells(SqlCompleteRow(r, text, now), trace) && Tells(SqlFailRow(r, text, now), trace)
    ensures Tells(SqlCancelRow(r, now), trace) && Tells(SqlRetryRow(r, now), UNTOUCHED)
    ensures Tells(SqlScheduleRetryRow(r, text, at, now), trace.(startedAt := None, claimedAt := None))
    ensures Tells(SqlRequeueRow(r, now), trace.(startedAt := None, claimedAt := None))
  {}

  /** A step other than an enqueue leaves each row of a table alone, drops it or does one thing to it. */
  lemma StepTells(db: Database, op: Op, id: JobId, trace: Trace)
    requires Numbered(db) && WellFormed(op) && (id in db.table ==> Tells(db.table[id], trace))
    ensures Numbered(Next(db, op))
    ensures id in Next(db, op).table ==> Tells(Next(db, op).table[id], Traced(db, op, id, trace))
  {
    hide Tells, SqlCompleteRow, SqlFailRow, SqlCancelRow, SqlRetryRow, SqlScheduleRetryRow, SqlRequeueRow, SqlClaimRow,
      SqlInsertAll, SqlClashes, SqlPicked, IsStale, SqlRetryBatch, SqlCancelBatch, InitialRow;
    var t := db.table;
    if op.Enqueue? {
      if !SqlClashes(t, op.rows) { InsertTells(t, op.rows, db.lastId, id); }
    } else {
      if op.RetryBatch? { SqlRetryBatchIs(t, op.ids, op.now); }
      if op.CancelBatch? { SqlCancelBatchIs(t, op.ids, op.now); }
      if id in t {
        RowTells(db, op, id, trace);
      }
    }
  }

  lemma RowTells(db: Database, op: Op, id: JobId, trace: Trace)
    requires !op.Enqueue? && id in db.table && Tells(db.table[id], trace)
    ensures id in SqlApply(db.table, op, db.lastId) ==>
              Tells(SqlApply(db.table, op, db.lastId)[id], Traced(db, op, id, trace))
  {
    hide Tells, SqlCompleteRow, SqlFailRow, SqlCancelRow, SqlRetryRow, SqlScheduleRetryRow, SqlRequeueRow, SqlClaimRow,
      SqlPicked, IsStale, SqlRetryBatch, SqlCancelBatch;
    var t, r := db.table, db.table[id];
    match op
    case Claim(q, node, max, now) => ClaimTells(r, trace, node, now);
    case Complete(_, text, now) => OtherTells(r, trace, text, now, now);
    case Fail(_, text, now) => OtherTells(r, trace, text, now, now);
    case ScheduleRetry(_, text, at, now) => OtherTells(r, trace, text, at, now);
    case Retry(_, now) => OtherTells(r, trace, "", now, now);
    case RetryBatch(ids, now) =>
      OtherTells(r, trace, "", now, now);
      SqlRetryBatchIs(t, ids, now);
    case Cancel(_, now) => OtherTells(r, trace, "", now, now);
    case CancelBatch(ids, now) =>
      OtherTells(r, trace, "", now, now);
      SqlCancelBatchIs(t, ids, now);
    case RequeueStale(_, now) => OtherTells(r, trace, "", now, now);
    case Prune(_, _) =>
  }

  /**
   Over every run of the SQL driver a row tells of its claims: attempted_by the last fifty claimers since it was added
   or retried by hand, started_at the first and attempted_at the last claim since it was put off, requeued or retried,
   node_id the last claimer while it runs and nothing otherwise.
   */
  lemma {:induction false} SqlRowsTell(ops: seq<Op>, id: JobId)
    requires WellFormedRun(ops)
    ensures Numbered(SqlExec(ops))
    ensures id in SqlExec(ops).table ==> Tells(SqlExec(ops).table[id], TraceOf(ops, id))
  {
    hide Numbered, Next, Traced, Tells, WellFormed;
    if ops == [] {
      EmptyIsNumbered();
    } else {
      SqlRowsTell(Front(ops), id);
      StepTells(SqlExec(Front(ops)), Last(ops), id, TraceOf(Front(ops), id));
    }
  }

  lemma EmptyIsNumbered()
    ensures Numbered(Database(map[], 0))
  {}
}
