/** The index invariant of the Redis store, and that every script keeps it. */
module StoreInvariant {
  import opened Types
  import opened RowSteps
  import opened RowInvariant
  import opened JobStore

  /** `job:ids`, `job:created` and `jobs` hold the same keys, all handed out by the counter. */
  ghost predicate KeysOk(s: Store) {
    && s.ids.Keys == s.jobs.Keys
    && s.created.Keys == s.jobs.Keys
    && (forall i :: i in s.jobs ==>
         1 <= i <= s.nextId && s.jobs[i].id == i && s.ids[i] == i && s.created[i] == s.jobs[i].spec.createdAt)
  }

  /** `job:uuids` is the inverse of the rows' uuid column. */
  ghost predicate UuidsOk(s: Store) {
    && (forall u :: u in s.uuids ==> s.uuids[u] in s.jobs && s.jobs[s.uuids[u]].spec.uuid == u)
    && (forall i :: i in s.jobs ==> s.jobs[i].spec.uuid in s.uuids && s.uuids[s.jobs[i].spec.uuid] == i)
  }

  /** A due entry names a claimable row of its queue at its due time. */
  ghost predicate DueSound(s: Store) {
    forall k :: k in s.due ==>
      k.id in s.jobs && s.jobs[k.id].spec.queue == k.queue && s.jobs[k.id].state.Claimable() &&
          s.due[k] == s.jobs[k.id].scheduledAt
  }

  /** No row that can still be claimed lacks a due entry. */
  ghost predicate DueComplete(s: Store) {
    forall i :: i in s.jobs && Ready(s.jobs[i]) ==> DueKey(s.jobs[i].spec.queue, i) in s.due
  }

  ghost predicate DueOk(s: Store) {
    DueSound(s) && DueComplete(s)
  }

  /** `job:running` holds exactly the running rows, at the time they were claimed. */
  ghost predicate RunningOk(s: Store) {
    && (forall i :: i in s.running ==>
         i in s.jobs && s.jobs[i].state.Running? && Some(s.running[i]) == s.jobs[i].attemptedAt)
    && (forall i :: i in s.jobs && s.jobs[i].state.Running? ==> i in s.running)
  }

  ghost predicate RowsOk(s: Store) {
    forall i :: i in s.jobs ==> RowOk(s.jobs[i])
  }

  ghost predicate Inv(s: Store) {
    KeysOk(s) && UuidsOk(s) && DueOk(s) && RunningOk(s) && RowsOk(s)
  }

  ghost predicate WellFormed(op: Op) {
    op.Enqueue? ==> forall k :: 0 <= k < |op.rows| ==> InitialRow(op.rows[k])
  }

  ghost predicate WellFormedRun(ops: seq<Op>) {
    forall k :: 0 <= k < |ops| ==> WellFormed(ops[k])
  }

  lemma EmptyInv()
    ensures Inv(EMPTY)
  {}

  // ---------------------------------------------------------------- identity columns

  /** A step that neither adds nor removes rows and leaves the columns that name a row alone. */
  ghost predicate KeepsIdentity(s: Store, t: Store) {
    && t.nextId == s.nextId && t.ids == s.ids && t.created == s.created && t.uuids == s.uuids
    && t.jobs.Keys == s.jobs.Keys
    && (forall i :: i in s.jobs ==> t.jobs[i].id == s.jobs[i].id && t.jobs[i].spec == s.jobs[i].spec)
  }

  lemma IdentityKeeps(s: Store, t: Store)
    requires KeysOk(s) && UuidsOk(s) && KeepsIdentity(s, t)
    ensures KeysOk(t) && UuidsOk(t)
  {}

  lemma RewriteIdentity(jobs: map<JobId, Row>, ids: set<JobId>, edit: Edit)
    ensures Rewrite(jobs, ids, edit).Keys == jobs.Keys
    ensures forall i :: i in jobs ==>
              Rewrite(jobs, ids, edit)[i].id == jobs[i].id && Rewrite(jobs, ids, edit)[i].spec == jobs[i].spec
  {}

  lemma SameIdentity(s: Store)
    ensures KeepsIdentity(s, s)
  {}

  lemma RewrittenIdentity(s: Store, t: Store, ids: set<JobId>, edit: Edit)
    requires t == s.(jobs := Rewrite(s.jobs, ids, edit), due := t.due, running := t.running)
    ensures KeepsIdentity(s, t)
  {
    hide Rewrite, Edit.Of;
    RewriteIdentity(s.jobs, ids, edit);
  }

  // ---------------------------------------------------------------- enqueue

  lemma InsertKeys(s: Store, row: Row)
    requires KeysOk(s)
    ensures KeysOk(Insert(s, row))
  {}

  lemma InsertUuids(s: Store, row: Row)
    requires KeysOk(s) && UuidsOk(s) && row.spec.uuid !in s.uuids
    ensures UuidsOk(Insert(s, row))
  {}

  lemma InsertDue(s: Store, row: Row)
    requires KeysOk(s) && DueOk(s)
    ensures DueOk(Insert(s, row))
  {
    assert DueSound(Insert(s, row));
  }

  lemma InsertRunning(s: Store, row: Row)
    requires KeysOk(s) && RunningOk(s) && InitialRow(row)
    ensures RunningOk(Insert(s, row))
  {}

  lemma InsertRows(s: Store, row: Row)
    requires RowsOk(s) && InitialRow(row)
    ensures RowsOk(Insert(s, row))
  {
    InitialRowOk(row, s.nextId + 1);
  }

  lemma InsertInv(s: Store, row: Row)
    requires Inv(s) && InitialRow(row) && row.spec.uuid !in s.uuids
    ensures Inv(Insert(s, row))
  {
    InsertKeys(s, row);
    InsertUuids(s, row);
    InsertDue(s, row);
    InsertRunning(s, row);
    InsertRows(s, row);
  }

  lemma FrontDoesNotClash(s: Store, rows: seq<Row>)
    requires rows != [] && !Clashes(s, rows)
    ensures !Clashes(s, Front(rows))
  {
    forall k | 0 <= k < |rows| - 1
      ensures !ClashAt(s, Front(rows), k)
    {
      assert !ClashAt(s, rows, k);
    }
  }

  /** After a batch the store knows the uuids it knew before and those of the batch. */
  lemma {:induction false} InsertAllUuids(s: Store, rows: seq<Row>, u: string)
    ensures u in InsertAll(s, rows).uuids <==> u in s.uuids || exists k :: 0 <= k < |rows| && rows[k].spec.uuid == u
    ensures InsertAll(s, rows).nextId == s.nextId + |rows|
  {
    if rows != [] {
      InsertAllUuids(s, Front(rows), u);
      assert rows == Front(rows) + [Last(rows)];
    }
  }

  lemma {:induction false} InsertAllInv(s: Store, rows: seq<Row>)
    requires Inv(s) && !Clashes(s, rows)
    requires forall k :: 0 <= k < |rows| ==> InitialRow(rows[k])
    ensures Inv(InsertAll(s, rows))
  {
    if rows != [] {
      FrontDoesNotClash(s, rows);
      InsertAllInv(s, Front(rows));
      InsertAllUuids(s, Front(rows), Last(rows).spec.uuid);
      assert !ClashAt(s, rows, |rows| - 1);
      InsertInv(InsertAll(s, Front(rows)), Last(rows));
    }
  }

  // ---------------------------------------------------------------- claim

  lemma ClaimIdentity(s: Store, q: string, node: string, max: int, now: Time)
    ensures KeepsIdentity(s, ClaimStore(s, q, node, max, now))
  {
    hide Picked, Candidates, KeepsDue, Rewrite, AddAll, Elements, KeepsIdentity;
    SameIdentity(s);
    if max > 0 {
      RewrittenIdentity(s, ClaimStore(s, q, node, max, now), Elements(Picked(s, q, max, now)), ClaimEdit(node, now));
    }
  }

  lemma PickedReady(s: Store, q: string, max: int, now: Time)
    ensures forall i :: i in Picked(s, q, max, now) ==>
              i in s.jobs && Ready(s.jobs[i]) && DueKey(q, i) in s.due && s.due[DueKey(q, i)] <= now &&
                  i in Candidates(s, q, now)
    ensures forall i :: i in Candidates(s, q, now) ==> i in s.jobs && Ready(s.jobs[i])
    ensures forall i :: i in s.jobs && Ready(s.jobs[i]) && DueKey(q, i) in s.due && s.due[DueKey(q, i)] <= now ==>
              i in Candidates(s, q, now)
  {}

  lemma ClaimDue(s: Store, q: string, node: string, max: int, now: Time)
    requires DueOk(s)
    ensures DueOk(ClaimStore(s, q, node, max, now))
  {
    ClaimDueSound(s, q, node, max, now);
    ClaimDueComplete(s, q, node, max, now);
  }

  lemma ClaimDueSound(s: Store, q: string, node: string, max: int, now: Time)
    requires DueSound(s)
    ensures DueSound(ClaimStore(s, q, node, max, now))
  {
    hide Picked, Candidates, AddAll;
    PickedReady(s, q, max, now);
  }

  lemma ClaimDueComplete(s: Store, q: string, node: string, max: int, now: Time)
    requires DueComplete(s)
    ensures DueComplete(ClaimStore(s, q, node, max, now))
  {
    hide Picked, Candidates, AddAll;
    PickedReady(s, q, max, now);
  }

  lemma ClaimRunning(s: Store, q: string, node: string, max: int, now: Time)
    requires RunningOk(s)
    ensures RunningOk(ClaimStore(s, q, node, max, now))
  {
    hide Picked, Candidates, KeepsDue, Rewrite, AddAll, Ready, RunningOk;
    if max > 0 {
      var picked := Elements(Picked(s, q, max, now));
      PickedReady(s, q, max, now);
      RewrittenRunning(s, ClaimStore(s, q, node, max, now), picked, node, now);
    }
  }

  lemma RewrittenRunning(s: Store, t: Store, picked: set<JobId>, node: string, now: Time)
    requires RunningOk(s) && picked <= s.jobs.Keys
    requires t.jobs == Rewrite(s.jobs, picked, ClaimEdit(node, now)) && t.running == AddAll(s.running, picked, now)
    ensures RunningOk(t)
  {
    hide PushClaimer, CancelRow, RetryRow, RequeueRow;
    forall i | i in s.jobs
      ensures i in picked ==> t.jobs[i].state.Running? && t.jobs[i].attemptedAt == Some(now)
      ensures i !in picked ==> t.jobs[i] == s.jobs[i]
    {}
  }

  lemma ClaimRows(s: Store, q: string, node: string, max: int, now: Time)
    requires RowsOk(s)
    ensures RowsOk(ClaimStore(s, q, node, max, now))
  {
    forall i | i in Picked(s, q, max, now)
      ensures RowOk(ClaimRow(s.jobs[i], node, now))
    {
      ClaimRowOk(s.jobs[i], node, now);
    }
  }

  // ---------------------------------------------------------------- finish

  lemma CompleteDue(s: Store, id: JobId, output: string, now: Time)
    requires DueOk(s)
    ensures DueOk(CompleteStore(s, id, output, now))
  {}

  lemma FailDue(s: Store, id: JobId, message: string, now: Time)
    requires DueOk(s)
    ensures DueOk(FailStore(s, id, message, now))
  {}

  lemma ScheduleRetryDue(s: Store, id: JobId, message: string, at: Time, now: Time)
    requires DueOk(s)
    ensures DueOk(ScheduleRetryStore(s, id, message, at, now))
  {}

  lemma CompleteRunning(s: Store, id: JobId, output: string, now: Time)
    requires RunningOk(s)
    ensures RunningOk(CompleteStore(s, id, output, now))
  {}

  lemma FailRunning(s: Store, id: JobId, message: string, now: Time)
    requires RunningOk(s)
    ensures RunningOk(FailStore(s, id, message, now))
  {}

  lemma ScheduleRetryRunning(s: Store, id: JobId, message: string, at: Time, now: Time)
    requires RunningOk(s)
    ensures RunningOk(ScheduleRetryStore(s, id, message, at, now))
  {}

  lemma FinishIdentity(s: Store, op: Op)
    requires op.Complete? || op.Fail? || op.ScheduleRetry?
    ensures KeepsIdentity(s, Apply(s, op))
  {
    hide KeepsIdentity;
    var t := Apply(s, op);
    if t == s {
      SameIdentity(s);
    } else {
      ReplacedIdentity(s, t, op.id);
    }
  }

  lemma ReplacedIdentity(s: Store, t: Store, id: JobId)
    requires id in s.jobs && id in t.jobs && t.jobs == s.jobs[id := t.jobs[id]]
    requires t.jobs[id].id == s.jobs[id].id && t.jobs[id].spec == s.jobs[id].spec
    requires t.nextId == s.nextId && t.ids == s.ids && t.created == s.created && t.uuids == s.uuids
    ensures KeepsIdentity(s, t)
  {}

  lemma FinishIndexes(s: Store, op: Op)
    requires op.Complete? || op.Fail? || op.ScheduleRetry?
    requires DueOk(s) && RunningOk(s)
    ensures KeepsIdentity(s, Apply(s, op)) && DueOk(Apply(s, op)) && RunningOk(Apply(s, op))
  {
    hide DueOk, RunningOk, KeepsIdentity, CompleteStore, FailStore, ScheduleRetryStore;
    FinishIdentity(s, op);
    match op
    case Complete(id, output, now) =>
      CompleteDue(s, id, output, now);
      CompleteRunning(s, id, output, now);
    case Fail(id, message, now) =>
      FailDue(s, id, message, now);
      FailRunning(s, id, message, now);
    case ScheduleRetry(id, message, at, now) =>
      ScheduleRetryDue(s, id, message, at, now);
      ScheduleRetryRunning(s, id, message, at, now);
  }

  lemma FinishRows(s: Store, op: Op)
    requires op.Complete? || op.Fail? || op.ScheduleRetry?
    requires RowsOk(s)
    ensures RowsOk(Apply(s, op))
  {
    hide RowOk;
    if op.id in s.jobs {
      match op
      case Complete(id, output, now) =>
        if s.jobs[id].state.Running? { CompleteRowOk(s.jobs[id], output, now); }
      case Fail(id, message, now) =>
        if CanFail(s.jobs[id]) { FailRowOk(s.jobs[id], message, now); }
      case ScheduleRetry(id, message, at, now) =>
        if s.jobs[id].state.Running? { ScheduleRetryRowOk(s.jobs[id], message, at, now); }
    }
  }

  // ---------------------------------------------------------------- manual steps

  lemma RetryDue(s: Store, ids: seq<JobId>, now: Time)
    requires DueOk(s)
    ensures DueOk(RetryStore(s, ids, now))
  {}

  lemma RetryRunning(s: Store, ids: seq<JobId>, now: Time)
    requires RunningOk(s)
    ensures RunningOk(RetryStore(s, ids, now))
  {
    hide AddAll, DueKeys;
  }

  lemma RetryIdentity(s: Store, ids: seq<JobId>, now: Time)
    ensures KeepsIdentity(s, RetryStore(s, ids, now))
  {
    hide Screen, Rewrite, AddAll, DueKeys, Elements, KeepsIdentity;
    SameIdentity(s);
    if Screen(s.jobs, ids, CanRetry).None? {
      RewrittenIdentity(s, RetryStore(s, ids, now), Elements(ids), RetryEdit(now));
    }
  }

  /** Rewriting rows by a step that keeps each of them well formed. */
  lemma RewriteRowsOk(jobs: map<JobId, Row>, ids: set<JobId>, edit: Edit)
    requires forall i :: i in jobs ==> RowOk(jobs[i])
    requires forall i :: i in ids && i in jobs ==> RowOk(edit.Of(jobs[i]))
    ensures forall i :: i in Rewrite(jobs, ids, edit) ==> RowOk(Rewrite(jobs, ids, edit)[i])
  {
    hide RowOk, Edit.Of;
  }

  lemma RetryRows(s: Store, ids: seq<JobId>, now: Time)
    requires RowsOk(s)
    ensures RowsOk(RetryStore(s, ids, now))
  {
    hide RowOk, CanRetry, RetryRow, Screen, Rewrite;
    ScreenPasses(s.jobs, ids, CanRetry);
    forall i | i in ids && i in s.jobs && CanRetry(s.jobs[i])
      ensures RowOk(RetryEdit(now).Of(s.jobs[i]))
    {
      RetryRowOk(s.jobs[i], now);
    }
    if Screen(s.jobs, ids, CanRetry).None? {
      RewriteRowsOk(s.jobs, Elements(ids), RetryEdit(now));
    }
  }

  lemma CancelDue(s: Store, ids: seq<JobId>, now: Time)
    requires DueOk(s)
    ensures DueOk(CancelStore(s, ids, now))
  {}

  lemma CancelRunning(s: Store, ids: seq<JobId>, now: Time)
    requires RunningOk(s)
    ensures RunningOk(CancelStore(s, ids, now))
  {
    hide Screen, DueKeys;
    ScreenPasses(s.jobs, ids, CanCancel);
  }

  lemma CancelIdentity(s: Store, ids: seq<JobId>, now: Time)
    ensures KeepsIdentity(s, CancelStore(s, ids, now))
  {
    hide Screen, Rewrite, AddAll, DueKeys, Elements, KeepsIdentity;
    SameIdentity(s);
    if Screen(s.jobs, ids, CanCancel).None? {
      RewrittenIdentity(s, CancelStore(s, ids, now), Elements(ids), CancelEdit(now));
    }
  }

  lemma CancelRows(s: Store, ids: seq<JobId>, now: Time)
    requires RowsOk(s)
    ensures RowsOk(CancelStore(s, ids, now))
  {
    hide RowOk, CanCancel, CancelRow, Screen, Rewrite;
    ScreenPasses(s.jobs, ids, CanCancel);
    forall i | i in ids && i in s.jobs && CanCancel(s.jobs[i])
      ensures RowOk(CancelEdit(now).Of(s.jobs[i]))
    {
      CancelRowOk(s.jobs[i], now);
    }
    if Screen(s.jobs, ids, CanCancel).None? {
      RewriteRowsOk(s.jobs, Elements(ids), CancelEdit(now));
    }
  }

  // ---------------------------------------------------------------- maintenance

  lemma RequeueStaleDue(s: Store, timeout: int, now: Time)
    requires DueOk(s)
    ensures DueOk(RequeueStaleStore(s, timeout, now))
  {
    RequeueStaleDueSound(s, timeout, now);
    RequeueStaleDueComplete(s, timeout, now);
  }

  lemma RequeueStaleDueSound(s: Store, timeout: int, now: Time)
    requires DueSound(s)
    ensures DueSound(RequeueStaleStore(s, timeout, now))
  {}

  lemma RequeueStaleDueComplete(s: Store, timeout: int, now: Time)
    requires DueComplete(s)
    ensures DueComplete(RequeueStaleStore(s, timeout, now))
  {}

  lemma RequeueStaleIdentity(s: Store, timeout: int, now: Time)
    ensures KeepsIdentity(s, RequeueStaleStore(s, timeout, now))
  {
    hide Expired, Stale, Rewrite, AddAll, DueKeys, KeepsIdentity;
    RewrittenIdentity(s, RequeueStaleStore(s, timeout, now), Stale(s, now - timeout), RequeueEdit(now));
  }

  lemma RequeueStaleRunning(s: Store, timeout: int, now: Time)
    requires RunningOk(s)
    ensures RunningOk(RequeueStaleStore(s, timeout, now))
  {
    hide DueKeys, AddAll;
    assert Stale(s, now - timeout) == Expired(s, now - timeout);
  }

  lemma RequeueStaleRows(s: Store, timeout: int, now: Time)
    requires RowsOk(s)
    ensures RowsOk(RequeueStaleStore(s, timeout, now))
  {
    hide RowOk, RequeueRow, Rewrite;
    forall i | i in Stale(s, now - timeout)
      ensures RowOk(RequeueEdit(now).Of(s.jobs[i]))
    {
      RequeueRowOk(s.jobs[i], now);
    }
    RewriteRowsOk(s.jobs, Stale(s, now - timeout), RequeueEdit(now));
  }

  lemma PruneKeys(s: Store, before: Time, states: set<State>)
    requires KeysOk(s)
    ensures KeysOk(PruneStore(s, before, states))
  {
    assert Orphans(s, before) == {};
  }

  lemma PruneUuids(s: Store, before: Time, states: set<State>)
    requires UuidsOk(s)
    ensures UuidsOk(PruneStore(s, before, states))
  {
    var gone := Prunable(s, before, states);
    forall u | u in UuidsOf(s.jobs, gone)
      ensures u in s.uuids && s.uuids[u] in gone
    {
      var i :| i in gone && s.jobs[i].spec.uuid == u;
    }
    forall i | i in s.jobs && i !in gone
      ensures s.jobs[i].spec.uuid !in UuidsOf(s.jobs, gone)
    {}
  }

  lemma PruneIndexes(s: Store, before: Time, states: set<State>)
    requires DueOk(s) && RunningOk(s)
    ensures DueOk(PruneStore(s, before, states)) && RunningOk(PruneStore(s, before, states))
  {}

  lemma PruneInv(s: Store, before: Time, states: set<State>)
    requires Inv(s)
    ensures Inv(PruneStore(s, before, states))
  {
    PruneKeys(s, before, states);
    PruneUuids(s, before, states);
    PruneIndexes(s, before, states);
    PruneRows(s, before, states);
  }

  lemma PruneRows(s: Store, before: Time, states: set<State>)
    requires RowsOk(s)
    ensures RowsOk(PruneStore(s, before, states))
  {}

  // ---------------------------------------------------------------- every step

  lemma RetryIndexes(s: Store, ids: seq<JobId>, now: Time)
    requires DueOk(s) && RunningOk(s)
    ensures var t := RetryStore(s, ids, now); KeepsIdentity(s, t) && DueOk(t) && RunningOk(t)
  {
    hide DueOk, RunningOk, KeepsIdentity, RetryStore;
    RetryDue(s, ids, now);
    RetryRunning(s, ids, now);
    RetryIdentity(s, ids, now);
  }

  lemma CancelIndexes(s: Store, ids: seq<JobId>, now: Time)
    requires DueOk(s) && RunningOk(s)
    ensures var t := CancelStore(s, ids, now); KeepsIdentity(s, t) && DueOk(t) && RunningOk(t)
  {
    hide DueOk, RunningOk, KeepsIdentity, CancelStore;
    CancelDue(s, ids, now);
    CancelRunning(s, ids, now);
    CancelIdentity(s, ids, now);
  }

  lemma OtherIndexes(s: Store, op: Op)
    requires !op.Enqueue? && !op.Prune?
    requires DueOk(s) && RunningOk(s)
    ensures KeepsIdentity(s, Apply(s, op)) && DueOk(Apply(s, op)) && RunningOk(Apply(s, op))
  {
    hide DueOk, RunningOk, KeepsIdentity;
    match op
    case Claim(q, node, max, now) =>
      ClaimIdentity(s, q, node, max, now);
      ClaimDue(s, q, node, max, now);
      ClaimRunning(s, q, node, max, now);
    case Retry(id, now) => RetryIndexes(s, [id], now);
    case RetryBatch(ids, now) => RetryIndexes(s, ids, now);
    case Cancel(id, now) => CancelIndexes(s, [id], now);
    case CancelBatch(ids, now) => CancelIndexes(s, ids, now);
    case RequeueStale(timeout, now) =>
      RequeueStaleDue(s, timeout, now);
      RequeueStaleRunning(s, timeout, now);
      RequeueStaleIdentity(s, timeout, now);
    case _ => FinishIndexes(s, op);
  }

  lemma OtherRows(s: Store, op: Op)
    requires !op.Enqueue? && !op.Prune?
    requires RowsOk(s)
    ensures RowsOk(Apply(s, op))
  {
    hide RowsOk;
    match op
    case Claim(q, node, max, now) => ClaimRows(s, q, node, max, now);
    case Retry(id, now) => RetryRows(s, [id], now);
    case RetryBatch(ids, now) => RetryRows(s, ids, now);
    case Cancel(id, now) => CancelRows(s, [id], now);
    case CancelBatch(ids, now) => CancelRows(s, ids, now);
    case RequeueStale(timeout, now) => RequeueStaleRows(s, timeout, now);
    case _ => FinishRows(s, op);
  }

  /** Every driver call keeps the indexes in step with the rows. */
  lemma ApplyInv(s: Store, op: Op)
    requires Inv(s) && WellFormed(op)
    ensures Inv(Apply(s, op))
  {
    hide KeysOk, UuidsOk, DueOk, RunningOk, RowsOk, KeepsIdentity;
    match op
    case Enqueue(rows) =>
      if !Clashes(s, rows) { InsertAllInv(s, rows); }
    case Prune(before, states) => PruneInv(s, before, states);
    case _ =>
      OtherIndexes(s, op);
      OtherRows(s, op);
      IdentityKeeps(s, Apply(s, op));
  }
}
