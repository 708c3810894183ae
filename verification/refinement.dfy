/** The indexed Redis store and the flat SQL table do the same thing. */
module Refinement {
  import opened Types
  import opened RowSteps
  import opened Selection
  import opened JobStore
  import opened StoreInvariant
  import opened SqlTable

  ghost predicate Agree(jobs: map<JobId, Row>, t: Table) {
    && jobs.Keys == t.Keys
    && forall i :: i in jobs ==> View(jobs[i]) == View(t[i])
  }

  /** The call changes the same rows in both drivers: no mixed batch, no row claimed exactly at the stale cutoff. */
  ghost predicate Comparable(s: Store, op: Op) {
    match op
    case RetryBatch(ids, _) => AllAllowed(s.jobs, ids, CanRetry) || NoneAllowed(s.jobs, ids, CanRetry)
    case CancelBatch(ids, _) => AllAllowed(s.jobs, ids, CanCancel) || NoneAllowed(s.jobs, ids, CanCancel)
    case RequeueStale(timeout, now) => !OnTheDot(s, now - timeout)
    case _ => true
  }

  /** The call is answered alike by both drivers: a SQL batch reports success whatever it met. */
  ghost predicate AnsweredAlike(s: Store, op: Op) {
    match op
    case RetryBatch(ids, _) => AllAllowed(s.jobs, ids, CanRetry)
    case CancelBatch(ids, _) => AllAllowed(s.jobs, ids, CanCancel)
    case RequeueStale(timeout, now) => !OnTheDot(s, now - timeout)
    case _ => true
  }

  ghost predicate AllAllowed(jobs: map<JobId, Row>, ids: seq<JobId>, allowed: Row -> bool) {
    forall i :: i in ids ==> i in jobs && allowed(jobs[i])
  }

  ghost predicate OnTheDot(s: Store, cutoff: Time) {
    exists i :: i in s.running && s.running[i] == cutoff
  }

  /** What the caller of the Redis driver sees, on the compared columns. */
  ghost function RedisOutcome(s: Store, op: Op): Outcome {
    match Answer(s, op)
    case Inserted(_) => Accepted(true)
    case Claimed(rows) => Took(multiset(Views(rows)))
    case Counted(n) => Affected(n)
    case Done => Accepted(true)
    case Refused(_) => Accepted(false)
  }

  function Views(rows: seq<Row>): (v: seq<Row>)
    ensures |v| == |rows| && forall k :: 0 <= k < |rows| ==> v[k] == View(rows[k])
  {
    seq(|rows|, k requires 0 <= k < |rows| => View(rows[k]))
  }

  // ---------------------------------------------------------------- rows

  /** Rows that agree are alike in every column a WHERE or ORDER BY looks at. */
  lemma SameColumns(r: Row, r': Row)
    requires View(r) == View(r')
    ensures r'.spec == r.spec && r'.state == r.state && r'.attempt == r.attempt && r'.scheduledAt == r.scheduledAt
    ensures r.state.Running? ==> r'.attemptedAt == r.attemptedAt
  {}

  lemma SameClaim(r: Row, r': Row, node: string, now: Time)
    requires View(r) == View(r')
    ensures View(ClaimRow(r, node, now)) == View(SqlClaimRow(r', node, now))
  {}

  lemma SameFinish(r: Row, r': Row, text: string, at: Time, now: Time)
    requires View(r) == View(r')
    ensures View(CompleteRow(r, text, now)) == View(SqlCompleteRow(r', text, now))
    ensures View(FailRow(r, text, now)) == View(SqlFailRow(r', text, now))
    ensures View(ScheduleRetryRow(r, text, at, now)) == View(SqlScheduleRetryRow(r', text, at, now))
  {}

  lemma SameRetry(r: Row, r': Row, now: Time)
    requires View(r) == View(r')
    ensures View(RetryRow(r, now)) == View(SqlRetryRow(r', now)) && CanRetry(r') == CanRetry(r)
    ensures CanRetry(r) ==> View(RetryRow(r, now)) != View(r)
  {}

  lemma SameCancel(r: Row, r': Row, now: Time)
    requires View(r) == View(r')
    ensures View(CancelRow(r, now)) == View(SqlCancelRow(r', now)) && CanCancel(r') == CanCancel(r)
    ensures CanCancel(r) ==> View(CancelRow(r, now)) != View(r)
  {}

  lemma SameRequeue(r: Row, r': Row, now: Time)
    requires View(r) == View(r')
    ensures View(RequeueRow(r, now)) == View(SqlRequeueRow(r', now))
    ensures r.state.Running? ==> View(RequeueRow(r, now)) != View(r)
  {}

  lemma AgreeAt(jobs: map<JobId, Row>, t: Table, id: JobId, r: Row, r': Row)
    requires Agree(jobs, t) && View(r) == View(r')
    ensures Agree(jobs[id := r], t[id := r'])
  {}

  lemma SameKeys(jobs: map<JobId, Row>, t: Table)
    requires Agree(jobs, t)
    ensures jobs.Keys == t.Keys
  {}

  // ---------------------------------------------------------------- enqueue

  lemma ClashesAlike(s: Store, t: Table, rows: seq<Row>)
    requires UuidsOk(s) && Agree(s.jobs, t)
    requires forall k :: 0 <= k < |rows| ==> InitialRow(rows[k])
    ensures Clashes(s, rows) <==> SqlClashes(t, rows)
  {
    forall i | i in s.jobs
      ensures t[i].spec.uuid == s.jobs[i].spec.uuid
    {
      SameColumns(s.jobs[i], t[i]);
    }
    forall k | 0 <= k < |rows|
      ensures ClashAt(s, rows, k) <==> SqlClashAt(t, rows, k)
    {
      if rows[k].spec.uuid in s.uuids {
        var i := s.uuids[rows[k].spec.uuid];
        assert i in t && t[i].spec.uuid == rows[k].spec.uuid;
      }
    }
  }

  lemma SameInsert(row: Row, id: JobId)
    requires InitialRow(row)
    ensures row.(id := id) == SqlInsertRow(row, id)
  {}

  lemma {:induction false} InsertAllAgrees(s: Store, t: Table, rows: seq<Row>)
    requires Agree(s.jobs, t)
    requires forall k :: 0 <= k < |rows| ==> InitialRow(rows[k])
    ensures InsertAll(s, rows).nextId == s.nextId + |rows|
    ensures Agree(InsertAll(s, rows).jobs, SqlInsertAll(t, rows, s.nextId))
  {
    hide InitialRow, SqlInsertRow, View, Agree;
    if rows != [] {
      InsertAllAgrees(s, t, Front(rows));
      var id, row := s.nextId + |rows|, Last(rows);
      SameInsert(row, id);
      AgreeAt(InsertAll(s, Front(rows)).jobs, SqlInsertAll(t, Front(rows), s.nextId), id, row.(id := id),
          SqlInsertRow(row, id));
    }
  }

  // ---------------------------------------------------------------- claim

  /** The due index finds exactly the rows the WHERE clause finds, with the same sort columns. */
  lemma IndexFindsEligible(s: Store, t: Table, q: string, now: Time)
    requires DueOk(s) && Agree(s.jobs, t)
    ensures Candidates(s, q, now) == Eligible(t, q, now)
  {
    hide View, Candidates, Eligible, DueOk;
    var a, b := Candidates(s, q, now), Eligible(t, q, now);
    forall i
      ensures i in a <==> i in b
      ensures i in a && i in b ==> a[i] == b[i]
    {
      IndexFindsRow(s, t, q, now, i);
    }
    assert a.Keys == b.Keys;
  }

  lemma IndexFindsRow(s: Store, t: Table, q: string, now: Time, i: JobId)
    requires DueOk(s) && Agree(s.jobs, t)
    ensures i in Candidates(s, q, now) <==> i in Eligible(t, q, now)
    ensures i in Candidates(s, q, now) ==> Candidates(s, q, now)[i] == Eligible(t, q, now)[i]
  {
    hide View;
    if i in s.jobs {
      SameColumns(s.jobs[i], t[i]);
    }
  }

  /** Claiming through the index takes the first `max` rows of the ordered WHERE, in that order. */
  lemma ClaimPicksAlike(s: Store, t: Table, q: string, max: int, now: Time)
    requires DueOk(s) && Agree(s.jobs, t)
    ensures Picked(s, q, max, now) == SqlPicked(t, q, max, now)
    ensures max > 0 ==> IsFirst(Eligible(t, q, now), max, Picked(s, q, max, now))
  {
    IndexFindsEligible(s, t, q, now);
    if max > 0 {
      FirstIsFirst(Eligible(t, q, now), max);
    }
  }

  lemma ClaimAgrees(s: Store, t: Table, q: string, node: string, max: int, now: Time)
    requires DueOk(s) && Agree(s.jobs, t)
    ensures Agree(ClaimStore(s, q, node, max, now).jobs, SqlClaim(t, q, node, max, now))
  {
    hide View, ClaimRow, SqlClaimRow, Picked, SqlPicked, ClaimStore, DueOk;
    ClaimPicksAlike(s, t, q, max, now);
    StartedRowsAre(s, q, node, max, now);
    var a, b := ClaimStore(s, q, node, max, now).jobs, SqlClaim(t, q, node, max, now);
    forall i | i in s.jobs
      ensures View(a[i]) == View(b[i])
    {
      SameClaim(s.jobs[i], t[i], node, now);
    }
  }

  lemma PickedNone(s: Store, q: string, max: int, now: Time)
    ensures max <= 0 ==> Picked(s, q, max, now) == []
  {}

  lemma StartedRowsAre(s: Store, q: string, node: string, max: int, now: Time)
    ensures
      var a := ClaimStore(s, q, node, max, now).jobs;
      a.Keys == s.jobs.Keys &&
      forall i :: i in s.jobs ==>
        a[i] == if i in Picked(s, q, max, now) then ClaimRow(s.jobs[i], node, now) else s.jobs[i]
  {
    hide ClaimRow, Picked, Candidates, KeepsDue, AddAll;
    PickedNone(s, q, max, now);
  }

  /** The rows a claim starts are the same on both sides, listed in claiming order. */
  lemma StartedAlike(s: Store, t: Table, q: string, node: string, max: int, now: Time)
    requires DueOk(s) && Agree(s.jobs, t)
    ensures Views(ClaimedRows(s, q, node, max, now)) == SqlStarted(t, q, node, max, now)
  {
    hide View, ClaimRow, SqlClaimRow, Picked, SqlPicked, DueOk;
    ClaimPicksAlike(s, t, q, max, now);
    PickedReady(s, q, max, now);
    var picked := Picked(s, q, max, now);
    forall k | 0 <= k < |picked|
      ensures View(ClaimRow(s.jobs[picked[k]], node, now)) == View(SqlClaimRow(t[picked[k]], node, now))
    {
      SameClaim(s.jobs[picked[k]], t[picked[k]], node, now);
    }
  }

  lemma ClaimOutcomes(s: Store, t: Table, q: string, node: string, max: int, now: Time)
    requires DueOk(s) && Agree(s.jobs, t)
    ensures RedisOutcome(s, Claim(q, node, max, now)) == SqlOutcome(t, Claim(q, node, max, now))
  {
    hide ClaimedRows, SqlStarted, DueOk, Views;
    StartedAlike(s, t, q, node, max, now);
  }

  /**
   The MySQL claim selects the started rows again, in claiming order: its answer is the Redis answer also in order.
   */
  lemma MySqlAnswersInOrder(s: Store, t: Table, q: string, node: string, max: int, now: Time)
    requires DueOk(s) && Agree(s.jobs, t)
    ensures
      var t' := SqlClaim(t, q, node, max, now);
      var ids := Reselected(t', Elements(SqlPicked(t, q, max, now)));
      var rows := ClaimedRows(s, q, node, max, now);
      && |ids| == |rows| && forall k :: 0 <= k < |ids| ==> ids[k] in t' && View(t'[ids[k]]) == View(rows[k])
  {
    hide View, ClaimRow, SqlClaimRow, SqlPicked, DueOk, Reselected, ClaimedRows, Elements, Views;
    ReselectedIsPicked(t, q, node, max, now);
    StartedAlike(s, t, q, node, max, now);
  }

  /** A claim leaves the sort columns alone, and has picked in their order. */
  lemma PickedRanks(t: Table, q: string, node: string, max: int, now: Time)
    ensures
      var t', picked, ranks := SqlClaim(t, q, node, max, now), SqlPicked(t, q, max, now), Eligible(t, q, now);
      && Distinct(picked)
      && (forall i :: i in picked ==>
            i in t' && i in ranks && Rank(t'[i].spec.priority, t'[i].scheduledAt, i) == ranks[i])
      && (forall j, k :: 0 <= j < k < |picked| ==> Before(ranks[picked[j]], ranks[picked[k]]))
  {
    if max > 0 {
      FirstIsDistinct(Eligible(t, q, now), max);
      FirstIsFirst(Eligible(t, q, now), max);
    }
  }

  lemma ReselectedIsPicked(t: Table, q: string, node: string, max: int, now: Time)
    ensures Reselected(SqlClaim(t, q, node, max, now), Elements(SqlPicked(t, q, max, now))) == SqlPicked(t, q, max, now)
  {
    hide Eligible, SqlClaimRow;
    var t', picked := SqlClaim(t, q, node, max, now), SqlPicked(t, q, max, now);
    var ids := Elements(picked);
    var ranks := map i | i in ids :: Rank(t'[i].spec.priority, t'[i].scheduledAt, i);
    PickedRanks(t, q, node, max, now);
    DistinctCount(picked);
    assert ranks.Keys == ids && |ranks| == |ranks.Keys|;
    assert IsFirst(ranks, |ids|, picked);
    FirstIsUnique(ranks, |ids|, picked);
  }

  // ---------------------------------------------------------------- finish

  lemma CompleteAgrees(s: Store, t: Table, id: JobId, output: string, now: Time)
    requires Agree(s.jobs, t) && id in s.jobs
    ensures Agree(CompleteStore(s, id, output, now).jobs, SqlComplete(t, id, output, now))
  {
    hide View, CompleteRow, SqlCompleteRow;
    var r, r' := s.jobs[id], t[id];
    SameColumns(r, r');
    SameFinish(r, r', output, now, now);
    AgreeAt(s.jobs, t, id, CompleteRow(r, output, now), SqlCompleteRow(r', output, now));
  }

  lemma FailAgrees(s: Store, t: Table, id: JobId, message: string, now: Time)
    requires Agree(s.jobs, t) && id in s.jobs
    ensures Agree(FailStore(s, id, message, now).jobs, SqlFail(t, id, message, now))
  {
    hide View, FailRow, SqlFailRow;
    var r, r' := s.jobs[id], t[id];
    SameColumns(r, r');
    SameFinish(r, r', message, now, now);
    AgreeAt(s.jobs, t, id, FailRow(r, message, now), SqlFailRow(r', message, now));
  }

  lemma ScheduleRetryAgrees(s: Store, t: Table, id: JobId, message: string, at: Time, now: Time)
    requires Agree(s.jobs, t) && id in s.jobs
    ensures Agree(ScheduleRetryStore(s, id, message, at, now).jobs, SqlScheduleRetry(t, id, message, at, now))
  {
    hide View, ScheduleRetryRow, SqlScheduleRetryRow;
    var r, r' := s.jobs[id], t[id];
    SameColumns(r, r');
    SameFinish(r, r', message, at, now);
    AgreeAt(s.jobs, t, id, ScheduleRetryRow(r, message, at, now), SqlScheduleRetryRow(r', message, at, now));
  }

  lemma FinishAgrees(s: Store, t: Table, op: Op)
    requires op.Complete? || op.Fail? || op.ScheduleRetry?
    requires Agree(s.jobs, t)
    ensures Agree(Apply(s, op).jobs, SqlApply(t, op, s.nextId))
  {
    hide View, CompleteRow, FailRow, ScheduleRetryRow, SqlCompleteRow, SqlFailRow, SqlScheduleRetryRow, Agree, CanFail;
    assert s.jobs.Keys == t.Keys by { SameKeys(s.jobs, t); }
    if op.id in s.jobs {
      match op
      case Complete(id, output, now) => CompleteAgrees(s, t, id, output, now);
      case Fail(id, message, now) => FailAgrees(s, t, id, message, now);
      case ScheduleRetry(id, message, at, now) => ScheduleRetryAgrees(s, t, id, message, at, now);
    }
  }

  lemma FinishOutcomes(s: Store, t: Table, op: Op)
    requires op.Complete? || op.Fail? || op.ScheduleRetry?
    requires Agree(s.jobs, t)
    ensures RedisOutcome(s, op) == SqlOutcome(t, op)
  {
    hide View;
    if op.id in s.jobs {
      SameColumns(s.jobs[op.id], t[op.id]);
    }
  }

  // ---------------------------------------------------------------- manual steps

  /** A batch of updates reaches the rows that allow it, each once. */
  lemma {:induction false} SqlRetryBatchIs(t: Table, ids: seq<JobId>, now: Time)
    ensures SqlRetryBatch(t, ids, now) == map i | i in t ::
              if i in ids && CanRetry(t[i]) then SqlRetryRow(t[i], now) else t[i]
  {
    if ids != [] {
      SqlRetryBatchIs(t, Front(ids), now);
      assert ids == Front(ids) + [Last(ids)];
    }
  }

  lemma {:induction false} SqlCancelBatchIs(t: Table, ids: seq<JobId>, now: Time)
    ensures SqlCancelBatch(t, ids, now) == map i | i in t ::
              if i in ids && CanCancel(t[i]) then SqlCancelRow(t[i], now) else t[i]
  {
    if ids != [] {
      SqlCancelBatchIs(t, Front(ids), now);
      assert ids == Front(ids) + [Last(ids)];
    }
  }

  ghost predicate NoneAllowed(jobs: map<JobId, Row>, ids: seq<JobId>, allowed: Row -> bool) {
    forall i :: i in ids && i in jobs ==> !allowed(jobs[i])
  }

  /** How two updates of agreeing rows may turn out at one row, if every change shows. */
  ghost predicate Lined(r: Row, r': Row, a: Row, b: Row, hitA: bool, hitB: bool) {
    if hitA && hitB then View(a) == View(b)
    else if hitA then View(a) != View(r) && b == r'
    else if hitB then View(b) != View(r) && a == r
    else a == r && b == r'
  }

  /** Two updates of agreeing rows agree exactly when they change the same rows. */
  lemma UpdatesAgree(jobs: map<JobId, Row>, t: Table, a: map<JobId, Row>, b: Table, hitA: set<JobId>, hitB: set<JobId>)
    requires Agree(jobs, t) && a.Keys == b.Keys == jobs.Keys
    requires hitA <= jobs.Keys && hitB <= jobs.Keys
    requires forall i :: i in jobs ==> Lined(jobs[i], t[i], a[i], b[i], i in hitA, i in hitB)
    ensures Agree(a, b) <==> hitA == hitB
  {
    hide View;
    if i :| i in jobs && (i in hitA) != (i in hitB) {
      assert View(a[i]) != View(b[i]);
    } else {
      assert hitA == hitB;
    }
  }

  /** The ids a Redis batch reaches: all of them or none. */
  ghost function Reached(jobs: map<JobId, Row>, ids: seq<JobId>, allowed: Row -> bool): set<JobId> {
    if AllAllowed(jobs, ids, allowed) then Good(jobs, ids, allowed) else {}
  }

  ghost function Good(jobs: map<JobId, Row>, ids: seq<JobId>, allowed: Row -> bool): set<JobId> {
    set i | i in ids && i in jobs && allowed(jobs[i])
  }

  lemma ReachedIsGood(jobs: map<JobId, Row>, ids: seq<JobId>, allowed: Row -> bool)
    ensures Reached(jobs, ids, allowed) == Good(jobs, ids, allowed) <==>
              AllAllowed(jobs, ids, allowed) || NoneAllowed(jobs, ids, allowed)
  {
    if i :| i in ids && i in jobs && allowed(jobs[i]) {
      assert i in Good(jobs, ids, allowed);
    }
  }

  lemma RetriedRows(s: Store, ids: seq<JobId>, now: Time)
    ensures
      var a := RetryStore(s, ids, now).jobs;
      a.Keys == s.jobs.Keys &&
      forall i :: i in s.jobs ==>
        a[i] == if i in Reached(s.jobs, ids, CanRetry) then RetryRow(s.jobs[i], now) else s.jobs[i]
  {
    hide RetryRow, CanRetry, Screen, DueKeys, AddAll;
    ScreenPasses(s.jobs, ids, CanRetry);
  }

  lemma CancelledRows(s: Store, ids: seq<JobId>, now: Time)
    ensures
      var a := CancelStore(s, ids, now).jobs;
      a.Keys == s.jobs.Keys &&
      forall i :: i in s.jobs ==>
        a[i] == if i in Reached(s.jobs, ids, CanCancel) then CancelRow(s.jobs[i], now) else s.jobs[i]
  {
    hide CancelRow, CanCancel, Screen, DueKeys;
    ScreenPasses(s.jobs, ids, CanCancel);
  }

  /**
   Redis refuses a batch with one bad id; SQL updates the good ones. The two agree exactly when the batch is not mixed.
   */
  lemma RetryAgrees(s: Store, t: Table, ids: seq<JobId>, now: Time)
    requires Agree(s.jobs, t)
    ensures Agree(RetryStore(s, ids, now).jobs, SqlRetryBatch(t, ids, now)) <==>
            AllAllowed(s.jobs, ids, CanRetry) || NoneAllowed(s.jobs, ids, CanRetry)
  {
    hide View, RetryRow, SqlRetryRow, CanRetry, RetryStore, SqlRetryBatch, AllAllowed, NoneAllowed;
    RetriedRows(s, ids, now);
    SqlRetryBatchIs(t, ids, now);
    ReachedIsGood(s.jobs, ids, CanRetry);
    var a, b := RetryStore(s, ids, now).jobs, SqlRetryBatch(t, ids, now);
    var hitA, hitB := Reached(s.jobs, ids, CanRetry), Good(s.jobs, ids, CanRetry);
    forall i | i in s.jobs
      ensures Lined(s.jobs[i], t[i], a[i], b[i], i in hitA, i in hitB)
    {
      SameRetry(s.jobs[i], t[i], now);
    }
    UpdatesAgree(s.jobs, t, a, b, hitA, hitB);
  }

  lemma CancelAgrees(s: Store, t: Table, ids: seq<JobId>, now: Time)
    requires Agree(s.jobs, t)
    ensures Agree(CancelStore(s, ids, now).jobs, SqlCancelBatch(t, ids, now)) <==>
            AllAllowed(s.jobs, ids, CanCancel) || NoneAllowed(s.jobs, ids, CanCancel)
  {
    hide View, CancelRow, SqlCancelRow, CanCancel, CancelStore, SqlCancelBatch, AllAllowed, NoneAllowed;
    CancelledRows(s, ids, now);
    SqlCancelBatchIs(t, ids, now);
    ReachedIsGood(s.jobs, ids, CanCancel);
    var a, b := CancelStore(s, ids, now).jobs, SqlCancelBatch(t, ids, now);
    var hitA, hitB := Reached(s.jobs, ids, CanCancel), Good(s.jobs, ids, CanCancel);
    forall i | i in s.jobs
      ensures Lined(s.jobs[i], t[i], a[i], b[i], i in hitA, i in hitB)
    {
      SameCancel(s.jobs[i], t[i], now);
    }
    UpdatesAgree(s.jobs, t, a, b, hitA, hitB);
  }

  /** Redis refuses a batch with a bad id; SQL reports success. They answer alike exactly when every id is allowed. */
  lemma BatchOutcomes(s: Store, t: Table, op: Op)
    requires op.RetryBatch? || op.CancelBatch?
    ensures RedisOutcome(s, op) == SqlOutcome(t, op) <==> AnsweredAlike(s, op)
  {
    hide CanRetry, CanCancel;
    ScreenPasses(s.jobs, op.ids, if op.RetryBatch? then CanRetry else CanCancel);
  }

  /** One id is not a mixed batch, so the single calls always agree. */
  lemma SingleAgrees(s: Store, t: Table, op: Op)
    requires op.Retry? || op.Cancel?
    requires Agree(s.jobs, t)
    ensures Agree(Apply(s, op).jobs, SqlApply(t, op, s.nextId))
  {
    hide RetryStore, CancelStore, CanRetry, CanCancel, SqlRetryRow, SqlCancelRow, View;
    var ids := [op.id];
    if op.Retry? {
      RetryAgrees(s, t, ids, op.now);
      assert SqlRetryBatch(t, Front(ids), op.now) == t;
    } else {
      CancelAgrees(s, t, ids, op.now);
      assert SqlCancelBatch(t, Front(ids), op.now) == t;
    }
  }

  lemma SingleOutcomes(s: Store, t: Table, op: Op)
    requires op.Retry? || op.Cancel?
    requires Agree(s.jobs, t)
    ensures RedisOutcome(s, op) == SqlOutcome(t, op)
  {
    hide View;
    ScreenPasses(s.jobs, [op.id], if op.Retry? then CanRetry else CanCancel);
    if op.id in s.jobs {
      SameColumns(s.jobs[op.id], t[op.id]);
    }
  }

  // ---------------------------------------------------------------- maintenance

  lemma StaleAlike(s: Store, t: Table, cutoff: Time)
    requires RunningOk(s) && Agree(s.jobs, t)
    ensures SqlStale(t, cutoff) == (set i | i in s.running && s.running[i] < cutoff)
    ensures Stale(s, cutoff) == (set i | i in s.running && s.running[i] <= cutoff)
  {
    forall i | i in s.jobs
      ensures IsStale(t[i], cutoff) <==> i in s.running && s.running[i] < cutoff
    {
      SameColumns(s.jobs[i], t[i]);
    }
  }

  lemma StaleSets(s: Store, t: Table, cutoff: Time)
    requires RunningOk(s) && Agree(s.jobs, t)
    ensures SqlStale(t, cutoff) <= Stale(s, cutoff)
    ensures SqlStale(t, cutoff) == Stale(s, cutoff) <==> !OnTheDot(s, cutoff)
    ensures |SqlStale(t, cutoff)| == |Stale(s, cutoff)| <==> !OnTheDot(s, cutoff)
  {
    StaleAlike(s, t, cutoff);
    if i :| i in s.running && s.running[i] == cutoff {
      assert i in Stale(s, cutoff) && i !in SqlStale(t, cutoff);
      SmallerSet(SqlStale(t, cutoff), Stale(s, cutoff));
    }
  }

  lemma SmallerSet<T>(a: set<T>, b: set<T>)
    requires a < b
    ensures |a| < |b|
  {
    assert b == a + (b - a);
    assert b - a != {};
  }

  /**
   Redis requeues a job claimed exactly `timeout` ago, SQL does not: they agree exactly when there is no such job.
   */
  lemma RequeueStaleAgrees(s: Store, t: Table, timeout: int, now: Time)
    requires RunningOk(s) && Agree(s.jobs, t)
    ensures Agree(RequeueStaleStore(s, timeout, now).jobs, SqlRequeueStale(t, timeout, now)) <==>
              !OnTheDot(s, now - timeout)
  {
    hide View, RequeueRow, SqlRequeueRow, RequeueStaleStore, SqlRequeueStale, OnTheDot, Stale, SqlStale, Lined,
      RunningOk;
    var cutoff := now - timeout;
    StaleSets(s, t, cutoff);
    RequeuedRows(s, timeout, now);
    SqlRequeuedRows(t, timeout, now);
    StaleRows(s, t, cutoff);
    var a, b := RequeueStaleStore(s, timeout, now).jobs, SqlRequeueStale(t, timeout, now);
    var hitA, hitB := Stale(s, cutoff), SqlStale(t, cutoff);
    forall i | i in s.jobs
      ensures Lined(s.jobs[i], t[i], a[i], b[i], i in hitA, i in hitB)
    {
      RequeueLined(s.jobs[i], t[i], i in hitA, i in hitB, now);
    }
    UpdatesAgree(s.jobs, t, a, b, hitA, hitB);
  }

  lemma RequeueLined(r: Row, r': Row, hitA: bool, hitB: bool, now: Time)
    requires View(r) == View(r') && (hitA || hitB ==> r.state.Running?)
    ensures
      var a, b := if hitA then RequeueRow(r, now) else r, if hitB then SqlRequeueRow(r', now) else r';
      Lined(r, r', a, b, hitA, hitB)
  {
    hide View, RequeueRow, SqlRequeueRow;
    SameRequeue(r, r', now);
  }

  lemma StaleRows(s: Store, t: Table, cutoff: Time)
    requires RunningOk(s) && Agree(s.jobs, t)
    ensures Stale(s, cutoff) <= s.jobs.Keys && SqlStale(t, cutoff) <= t.Keys
    ensures forall i :: i in Stale(s, cutoff) || i in SqlStale(t, cutoff) ==> s.jobs[i].state.Running?
  {
    hide View;
    forall i | i in SqlStale(t, cutoff)
      ensures s.jobs[i].state.Running?
    {
      SameColumns(s.jobs[i], t[i]);
    }
  }

  lemma SqlRequeuedRows(t: Table, timeout: int, now: Time)
    ensures
      var b := SqlRequeueStale(t, timeout, now);
      b.Keys == t.Keys &&
      forall i :: i in t ==> b[i] == if i in SqlStale(t, now - timeout) then SqlRequeueRow(t[i], now) else t[i]
  {
    hide SqlRequeueRow, IsStale;
  }

  lemma RequeuedRows(s: Store, timeout: int, now: Time)
    ensures
      var a := RequeueStaleStore(s, timeout, now).jobs;
      a.Keys == s.jobs.Keys &&
      forall i :: i in s.jobs ==> a[i] == if i in Stale(s, now - timeout) then RequeueRow(s.jobs[i], now) else s.jobs[i]
  {
    hide RequeueRow, DueKeys, AddAll, Expired;
  }

  lemma PruneAgrees(s: Store, t: Table, before: Time, states: set<State>)
    requires KeysOk(s) && Agree(s.jobs, t)
    ensures Agree(PruneStore(s, before, states).jobs, SqlPrune(t, before, states))
    ensures Prunable(s, before, states) == SqlPrunable(t, before, states)
  {
    forall i | i in s.jobs
      ensures t[i].spec.createdAt == s.jobs[i].spec.createdAt && t[i].state == s.jobs[i].state
    {
      SameColumns(s.jobs[i], t[i]);
    }
    assert Prunable(s, before, states) == SqlPrunable(t, before, states);
  }

  // ---------------------------------------------------------------- every step

  /** One step leaves the drivers with the same rows exactly when it is comparable. */
  lemma TablesAgreeIff(s: Store, t: Table, op: Op)
    requires Inv(s) && Agree(s.jobs, t) && WellFormed(op)
    ensures Agree(Apply(s, op).jobs, SqlApply(t, op, s.nextId)) <==> Comparable(s, op)
  {
    hide KeysOk, UuidsOk, DueOk, RunningOk, RowsOk, Agree, InsertAll, SqlInsertAll, Clashes, SqlClashes, ClaimStore,
      SqlClaim, RetryStore, SqlRetry, SqlRetryBatch, CancelStore, SqlCancel, SqlCancelBatch, RequeueStaleStore,
      SqlRequeueStale, PruneStore, SqlPrune, AllAllowed, NoneAllowed;
    match op
    case Enqueue(rows) =>
      ClashesAlike(s, t, rows);
      InsertAllAgrees(s, t, rows);
    case Claim(q, node, max, now) => ClaimAgrees(s, t, q, node, max, now);
    case Retry(_, _) => SingleAgrees(s, t, op);
    case RetryBatch(ids, now) => RetryAgrees(s, t, ids, now);
    case Cancel(_, _) => SingleAgrees(s, t, op);
    case CancelBatch(ids, now) => CancelAgrees(s, t, ids, now);
    case RequeueStale(timeout, now) => RequeueStaleAgrees(s, t, timeout, now);
    case Prune(before, states) => PruneAgrees(s, t, before, states);
    case _ => FinishAgrees(s, t, op);
  }

  /** And it gives the same answer exactly when no batch is refused and no row sits on the stale cutoff. */
  lemma OutcomesAgreeIff(s: Store, t: Table, op: Op)
    requires Inv(s) && Agree(s.jobs, t) && WellFormed(op)
    ensures RedisOutcome(s, op) == SqlOutcome(t, op) <==> AnsweredAlike(s, op)
  {
    hide KeysOk, UuidsOk, DueOk, RunningOk, RowsOk, Agree, Clashes, SqlClashes, ClaimedRows, Screen, Stale, SqlStale,
      Prunable, SqlPrunable, AllAllowed, SqlStarted, Views;
    match op
    case Enqueue(rows) => ClashesAlike(s, t, rows);
    case Claim(q, node, max, now) => ClaimOutcomes(s, t, q, node, max, now);
    case Retry(_, _) => SingleOutcomes(s, t, op);
    case RetryBatch(_, _) => BatchOutcomes(s, t, op);
    case Cancel(_, _) => SingleOutcomes(s, t, op);
    case CancelBatch(_, _) => BatchOutcomes(s, t, op);
    case RequeueStale(timeout, now) => StaleSets(s, t, now - timeout);
    case Prune(before, states) => PruneAgrees(s, t, before, states);
    case _ => FinishOutcomes(s, t, op);
  }

  /** Running the drivers side by side. The database hands out the ids Redis counts. */
  ghost function RunBoth(ops: seq<Op>): (Store, Table) {
    if ops == [] then (EMPTY, map[])
    else
      var (s, t) := RunBoth(Front(ops));
      (Apply(s, Last(ops)), SqlApply(t, Last(ops), s.nextId))
  }

  lemma EmptyAgrees()
    ensures Inv(EMPTY) && Agree(EMPTY.jobs, map[])
  {
    EmptyInv();
  }

  /** The drivers hold the same rows after every step of a run. */
  ghost predicate InStep(ops: seq<Op>) {
    (ops == [] || InStep(Front(ops))) && var (s, t) := RunBoth(ops); Agree(s.jobs, t)
  }

  ghost predicate ComparableRun(ops: seq<Op>) {
    ops == [] || (ComparableRun(Front(ops)) && Comparable(RunBoth(Front(ops)).0, Last(ops)))
  }

  /** At every step of a run the drivers give the same answer if and only if the step is answered alike. */
  ghost predicate AnswersFollow(ops: seq<Op>) {
    ops == [] ||
    (AnswersFollow(Front(ops)) &&
     var (s, t) := RunBoth(Front(ops));
     RedisOutcome(s, Last(ops)) == SqlOutcome(t, Last(ops)) <==> AnsweredAlike(s, Last(ops)))
  }

  /**
   Over every run the two drivers stay in step exactly as long as the calls are comparable, and while they do, they
   differ in no answer except to a refused batch.
   */
  lemma {:induction false} DriversAgreeIff(ops: seq<Op>)
    requires WellFormedRun(ops)
    ensures Inv(RunBoth(ops).0)
    ensures InStep(ops) <==> ComparableRun(ops)
    ensures ComparableRun(ops) ==> AnswersFollow(ops)
  {
    hide Inv, Agree, Apply, SqlApply, RedisOutcome, SqlOutcome, Comparable, AnsweredAlike, WellFormed;
    if ops == [] {
      EmptyAgrees();
    } else {
      DriversAgreeIff(Front(ops));
      var (s, t) := RunBoth(Front(ops));
      ApplyInv(s, Last(ops));
      if Agree(s.jobs, t) {
        TablesAgreeIff(s, t, Last(ops));
        OutcomesAgreeIff(s, t, Last(ops));
      }
    }
  }
}
