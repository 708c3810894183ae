/**
 EnqueueBatch of both drivers on the caller's row objects: on success every object learns its id, on any failure
 the stored jobs and every caller's object are as they were.
 */
module EnqueueBatch {
  import opened Types
  import opened JobStore
  import opened SqlTable
  import opened RedisDriver

  /** A row in the hands of a caller. */
  class JobRef {
    var row: Row

    constructor (row: Row)
      ensures this.row == row
    {
      this.row := row;
    }
  }

  ghost function RowsOf(jobs: seq<JobRef>): (rows: seq<Row>)
    reads set j | j in jobs
    ensures |rows| == |jobs| && forall k :: 0 <= k < |jobs| ==> rows[k] == jobs[k].row
  {
    seq(|jobs|, k requires 0 <= k < |jobs| reads set j | j in jobs => jobs[k].row)
  }

  /** A batch without a uuid clash names no object twice. */
  lemma NoAliases(s: Store, jobs: seq<JobRef>)
    requires !Clashes(s, RowsOf(jobs))
    ensures forall i, j :: 0 <= i < j < |jobs| ==> jobs[i] != jobs[j]
  {
    forall i, j | 0 <= i < j < |jobs|
      ensures jobs[i] != jobs[j]
    {
      assert !ClashAt(s, RowsOf(jobs), j);
    }
  }

  method RedisEnqueueBatch(store: RedisStore, jobs: seq<JobRef?>) returns (ok: bool)
    modifies store, set j | j in jobs && j != null
    ensures null in jobs ==> !ok && store.Contents() == old(store.Contents())
    ensures null !in jobs ==> ok == !Clashes(old(store.Contents()), old(RowsOf(jobs)))
    ensures null !in jobs ==> store.Contents() == EnqueueStore(old(store.Contents()), old(RowsOf(jobs)))
    ensures !ok ==> forall k :: 0 <= k < |jobs| && jobs[k] != null ==> jobs[k].row == old(jobs[k].row)
    ensures ok ==> forall k :: 0 <= k < |jobs| ==> jobs[k].row == old(jobs[k].row).(id := old(store.nextId) + 1 + k)
  {
    hide Clashes, InsertAll, Insert;
    ok := false;
    var rows: seq<Row> := [];
    for i := 0 to |jobs|
      invariant null !in jobs[..i] && |rows| == i && !ok
      invariant forall k :: 0 <= k < i ==> rows[k] == jobs[k].row
    {
      if jobs[i] == null { return; }
      rows := rows + [jobs[i].row];
    }
    assert null !in jobs by { assert jobs[..|jobs|] == jobs; }
    assert rows == RowsOf(jobs);
    ghost var s := store.Contents();
    var reply := store.EnqueueScript(rows);
    if reply.Refused? { return; }
    NoAliases(s, jobs);
    for i := 0 to |jobs|
      invariant store.Contents() == EnqueueStore(s, rows)
      invariant forall k :: 0 <= k < |jobs| ==>
                  jobs[k].row == if k < i then rows[k].(id := s.nextId + 1 + k) else rows[k]
    {
      jobs[i].row := jobs[i].row.(id := reply.ids[i]);
    }
    ok := true;
  }

  /** The jobs table. The sequence that numbers its rows is not part of any transaction. */
  class SqlJobs {
    var table: Table
    var lastId: nat

    ghost predicate Valid()
      reads this
    {
      forall i :: i in table ==> i <= lastId
    }

    constructor ()
      ensures Valid() && table == map[] && lastId == 0
    {
      table, lastId := map[], 0;
    }
  }

  predicate UuidTaken(t: Table, uuid: string) {
    exists i :: i in t && t[i].spec.uuid == uuid
  }

  /** A table after some inserts holds the uuids it held and the inserted ones. */
  lemma {:induction false} InsertedUuids(t: Table, rows: seq<Row>, lastId: nat, uuid: string)
    requires forall i :: i in t ==> i <= lastId
    ensures forall i :: i in SqlInsertAll(t, rows, lastId) ==> i <= lastId + |rows|
    ensures UuidTaken(SqlInsertAll(t, rows, lastId), uuid) <==>
              UuidTaken(t, uuid) || exists k :: 0 <= k < |rows| && rows[k].spec.uuid == uuid
  {
    hide UuidTaken;
    if rows == [] {
      assert SqlInsertAll(t, rows, lastId) == t;
    } else {
      var front, id := Front(rows), lastId + |rows|;
      InsertedUuids(t, front, lastId, uuid);
      assert rows == front + [Last(rows)];
      if k :| 0 <= k < |front| && front[k].spec.uuid == uuid {
        assert rows[k].spec.uuid == uuid;
      }
      assert rows[|front|] == Last(rows);
      TakenAfter(SqlInsertAll(t, front, lastId), SqlInsertRow(Last(rows), id), id, uuid);
    }
  }

  lemma TakenAfter(t: Table, row: Row, id: JobId, uuid: string)
    requires id !in t
    ensures UuidTaken(t[id := row], uuid) <==> UuidTaken(t, uuid) || row.spec.uuid == uuid
  {
    var after := t[id := row];
    if i :| i in t && t[i].spec.uuid == uuid {
      assert i in after && after[i].spec.uuid == uuid;
    }
    if row.spec.uuid == uuid {
      assert id in after && after[id].spec.uuid == uuid;
    }
  }

  /** Only the id of a caller's row may differ from before. */
  twostate predicate OnlyIdsChanged(jobs: seq<JobRef>)
    reads set j | j in jobs
  {
    forall k :: 0 <= k < |jobs| ==> jobs[k].row == old(jobs[k].row).(id := jobs[k].row.id)
  }

  /** The deferred clean-up of an uncommitted batch. */
  method RestoreIds(jobs: seq<JobRef>, originalIds: seq<JobId>)
    requires |originalIds| == |jobs|
    requires forall j, k :: 0 <= j < k < |jobs| && jobs[j] == jobs[k] ==> originalIds[j] == originalIds[k]
    modifies set j | j in jobs
    ensures forall k :: 0 <= k < |jobs| ==> jobs[k].row == old(jobs[k].row).(id := originalIds[k])
  {
    for i := 0 to |jobs|
      invariant forall k :: 0 <= k < i ==> jobs[k].row == old(jobs[k].row).(id := originalIds[k])
      invariant forall k :: 0 <= k < |jobs| ==> jobs[k].row == old(jobs[k].row).(id := jobs[k].row.id)
    {
      jobs[i].row := jobs[i].row.(id := originalIds[i]);
    }
  }

  /** The insert loop of a transaction; `faults` are the statements that fail for a reason outside the model. */
  method InsertRows(db: SqlJobs, jobs: seq<JobRef>, faults: set<nat>) returns (ok: bool, tx: Table)
    requires db.Valid()
    modifies db`lastId, set j | j in jobs
    ensures db.Valid() && db.lastId >= old(db.lastId)
    ensures OnlyIdsChanged(jobs)
    ensures ok <==> !SqlClashes(db.table, old(RowsOf(jobs))) && forall k :: 0 <= k < |jobs| ==> k !in faults
    ensures ok ==> tx == SqlInsertAll(db.table, old(RowsOf(jobs)), old(db.lastId))
    ensures ok ==> db.lastId == old(db.lastId) + |jobs|
    ensures ok ==> forall k :: 0 <= k < |jobs| ==> jobs[k].row.id == old(db.lastId) + 1 + k
  {
    hide SqlInsertAll, UuidTaken;
    ghost var rows := RowsOf(jobs);
    InsertNoRows(db.table, rows, db.lastId);
    tx := db.table;
    ok := false;
    for i := 0 to |jobs|
      invariant db.Valid() && db.lastId == old(db.lastId) + i && !ok
      invariant OnlyIdsChanged(jobs)
      invariant tx == SqlInsertAll(db.table, rows[..i], old(db.lastId))
      invariant forall k :: 0 <= k < i ==> k !in faults && !SqlClashAt(db.table, rows, k)
      invariant forall k :: 0 <= k < i ==> jobs[k].row.id == old(db.lastId) + 1 + k
    {
      if i in faults { return; }
      var row := jobs[i].row;
      InsertedUuids(db.table, rows[..i], old(db.lastId), rows[i].spec.uuid);
      TakenIsClash(db.table, rows, i);
      db.lastId := db.lastId + 1;
      if UuidTaken(tx, row.spec.uuid) { return; }
      InsertNextRow(db.table, rows, old(db.lastId), i);
      tx := tx[db.lastId := SqlInsertRow(row, db.lastId)];
      forall k | 0 <= k < i
        ensures jobs[k] != jobs[i]
      {
        assert rows[k].spec.uuid != rows[i].spec.uuid;
      }
      jobs[i].row := row.(id := db.lastId);
    }
    assert rows[..|jobs|] == rows;
    ok := true;
  }

  lemma TakenIsClash(t: Table, rows: seq<Row>, i: nat)
    requires i < |rows|
    ensures SqlClashAt(t, rows, i) <==>
              || UuidTaken(t, rows[i].spec.uuid)
              || exists k :: 0 <= k < |rows[..i]| && rows[..i][k].spec.uuid == rows[i].spec.uuid
  {
    forall k | 0 <= k < i
      ensures rows[..i][k] == rows[k]
    {}
  }

  lemma InsertNoRows(t: Table, rows: seq<Row>, lastId: nat)
    ensures SqlInsertAll(t, rows[..0], lastId) == t
  {}

  lemma InsertNextRow(t: Table, rows: seq<Row>, lastId: nat, i: nat)
    requires i < |rows|
    ensures
      var id := lastId + i + 1;
      SqlInsertAll(t, rows[..i + 1], lastId) == SqlInsertAll(t, rows[..i], lastId)[id := SqlInsertRow(rows[i], id)]
  {
    assert Front(rows[..i + 1]) == rows[..i];
  }

  /** The whole transaction: all rows are stored and numbered, or nothing has happened that a caller could see. */
  method SqlEnqueueBatch(db: SqlJobs, jobs: seq<JobRef?>, faults: set<nat>, commitFails: bool) returns (ok: bool)
    requires db.Valid()
    modifies db, set j | j in jobs && j != null
    ensures db.Valid() && db.lastId >= old(db.lastId)
    ensures ok <==>
              && null !in jobs && !SqlClashes(old(db.table), old(RowsOf(jobs)))
              && !commitFails && forall k :: 0 <= k < |jobs| ==> k !in faults
    ensures !ok ==> db.table == old(db.table)
    ensures !ok ==> forall k :: 0 <= k < |jobs| && jobs[k] != null ==> jobs[k].row == old(jobs[k].row)
    ensures ok ==> db.table == SqlEnqueue(old(db.table), old(RowsOf(jobs)), old(db.lastId))
    ensures ok ==> forall k :: 0 <= k < |jobs| ==> jobs[k].row == old(jobs[k].row).(id := old(db.lastId) + 1 + k)
    ensures ok ==> forall k :: 0 <= k < |jobs| ==> jobs[k].row.id !in old(db.table)
  {
    hide SqlInsertAll, SqlClashes;
    ok := false;
    for i := 0 to |jobs|
      invariant null !in jobs[..i] && !ok
    {
      if jobs[i] == null { return; }
    }
    assert null !in jobs by { assert jobs[..|jobs|] == jobs; }
    var originalIds: seq<JobId> := [];
    for i := 0 to |jobs|
      invariant |originalIds| == i && !ok
      invariant forall k :: 0 <= k < i ==> originalIds[k] == jobs[k].row.id
    {
      originalIds := originalIds + [jobs[i].row.id];
    }
    var inserted, tx := InsertRows(db, jobs, faults);
    if !inserted || commitFails {
      RestoreIds(jobs, originalIds);
      return;
    }
    TableKeys(db.table, old(RowsOf(jobs)), old(db.lastId));
    db.table := tx;
    ok := true;
  }

  lemma TableKeys(t: Table, rows: seq<Row>, lastId: nat)
    requires forall i :: i in t ==> i <= lastId
    ensures forall i :: i in SqlInsertAll(t, rows, lastId) ==> i <= lastId + |rows|
  {
    InsertedUuids(t, rows, lastId, "");
  }
}
