/**
 The driver operations in the words of the scripts and statements: which states they accept, what order they take jobs
 in and what they store, over the rows' own columns and the state constructors.
 */
module Columns {
  import opened Types
  import opened RowSteps
  import opened Selection
  import opened JobStore
  import opened StoreInvariant
  import opened SqlTable
  import opened Refinement
  import opened Runs
  import opened Worker

  /** `state IN ('available', 'scheduled', 'retryable')` */
  ghost predicate Waits(r: Row) {
    r.state == Available || r.state == Scheduled || r.state == Retryable
  }

  lemma WaitsIsClaimable(r: Row)
    ensures r.state.Claimable() <==> Waits(r)
    ensures Ready(r) <==> Waits(r) && r.attempt < r.spec.maxAttempts
  {}

  // ---------------------------------------------------------------- claim

  /** The WHERE clause of a claim. */
  ghost predicate MayStart(r: Row, q: string, now: Time) {
    Waits(r) && r.spec.queue == q && r.scheduledAt <= now && r.attempt < r.spec.maxAttempts
  }

  /** The ORDER BY clause: higher priority, then earlier due time, then smaller id. */
  ghost predicate Precedes(a: Row, b: Row) {
    || a.spec.priority > b.spec.priority
    || (a.spec.priority == b.spec.priority && a.scheduledAt < b.scheduledAt)
    || (a.spec.priority == b.spec.priority && a.scheduledAt == b.scheduledAt && a.id < b.id)
  }

  /**
   A claim answers with rows that could start, in claiming order and no more than `max`; a row that could have started
   and was not taken comes behind all of them, and there is one only if `max` was reached.
   */
  lemma ClaimTakesTheFirst(s: Store, q: string, node: string, max: int, now: Time, rows: seq<Row>)
    requires Inv(s) && Answer(s, Claim(q, node, max, now)) == Claimed(rows)
    ensures |rows| <= if max < 0 then 0 else max
    ensures forall k :: 0 <= k < |rows| ==>
              var id := rows[k].id;
              && id in s.jobs && MayStart(s.jobs[id], q, now)
              && Starts(s.jobs[id], rows[k], id, node, now)
    ensures forall j, k :: 0 <= j < k < |rows| ==> Precedes(rows[j], rows[k])
    ensures forall k, u :: 0 <= k < |rows| && u in s.jobs && MayStart(s.jobs[u], q, now) && Left(rows, u) ==>
              Precedes(rows[k], s.jobs[u])
    ensures |rows| < max ==> forall u :: u in s.jobs && MayStart(s.jobs[u], q, now) ==> !Left(rows, u)
  {
    hide Inv, Candidates, Picked, MayStart, Precedes, Before, ClaimRow, First, IsFirst;
    var picked := Picked(s, q, max, now);
    StoreParts(s);
    CandidatesMayStart(s, q, now);
    PickedReady(s, q, max, now);
    PickedOrder(s, q, max, now);
    forall k | 0 <= k < |rows|
      ensures rows[k] == ClaimRow(s.jobs[picked[k]], node, now)
      ensures Starts(s.jobs[picked[k]], rows[k], picked[k], node, now)
    {
      IdsFit(s, picked[k]);
      ClaimStarts(s.jobs[picked[k]], node, now);
    }
    forall j, k | 0 <= j < k < |rows|
      ensures Precedes(rows[j], rows[k])
    {
      RankOrder(s, q, now, picked[j], picked[k]);
      SameOrder(s.jobs[picked[j]], s.jobs[picked[k]], rows[j], rows[k]);
    }
    forall k, u | 0 <= k < |rows| && u in s.jobs && MayStart(s.jobs[u], q, now) && Left(rows, u)
      ensures Precedes(rows[k], s.jobs[u])
    {
      LeftIsNotPicked(rows, picked, u);
      RankOrder(s, q, now, picked[k], u);
      SameOrder(s.jobs[picked[k]], s.jobs[u], rows[k], s.jobs[u]);
    }
    forall u | |rows| < max && u in s.jobs && MayStart(s.jobs[u], q, now)
      ensures !Left(rows, u)
    {
      AllPicked(s, q, max, now, u);
      var k :| 0 <= k < |picked| && picked[k] == u;
      assert rows[k].id == u;
    }
  }

  /** Row `r'` is job `id` started by the node. */
  ghost predicate Starts(r: Row, r': Row, id: JobId, node: string, now: Time) {
    && r'.id == id == r.id && r'.spec == r.spec && r'.scheduledAt == r.scheduledAt
    && r'.state == Running && r'.attempt == r.attempt + 1 && r'.nodeId == node && r'.attemptedAt == Some(now)
  }

  lemma ClaimStarts(r: Row, node: string, now: Time)
    ensures Starts(r, ClaimRow(r, node, now), r.id, node, now)
  {}

  /** Job `u` is not among the rows. */
  ghost predicate Left(rows: seq<Row>, u: JobId) {
    forall k :: 0 <= k < |rows| ==> rows[k].id != u
  }

  lemma LeftIsNotPicked(rows: seq<Row>, picked: seq<JobId>, u: JobId)
    requires |rows| == |picked| && (forall k :: 0 <= k < |rows| ==> rows[k].id == picked[k]) && Left(rows, u)
    ensures u !in picked
  {
    forall k | 0 <= k < |picked|
      ensures picked[k] != u
    {
      assert rows[k].id != u;
    }
  }

  lemma StoreParts(s: Store)
    requires Inv(s)
    ensures DueOk(s) && KeysOk(s)
  {}

  lemma IdsFit(s: Store, id: JobId)
    requires KeysOk(s) && id in s.jobs
    ensures s.jobs[id].id == id
  {}

  lemma CandidatesMayStart(s: Store, q: string, now: Time)
    requires DueOk(s)
    ensures forall i :: i in Candidates(s, q, now) <==> i in s.jobs && MayStart(s.jobs[i], q, now)
    ensures forall i :: i in Candidates(s, q, now) ==>
              Candidates(s, q, now)[i] == Rank(s.jobs[i].spec.priority, s.jobs[i].scheduledAt, i)
  {
    forall i
      ensures i in Candidates(s, q, now) <==> i in s.jobs && MayStart(s.jobs[i], q, now)
    {
      if i in s.jobs { assert DueKey(q, i) in s.due ==> s.jobs[i].spec.queue == q; }
    }
  }

  lemma PickedOrder(s: Store, q: string, max: int, now: Time)
    ensures
      var p, ranks := Picked(s, q, max, now), Candidates(s, q, now);
      && |p| <= (if max < 0 then 0 else max)
      && (forall j, k :: 0 <= j < k < |p| ==> Before(ranks[p[j]], ranks[p[k]]))
      && (forall k, i :: 0 <= k < |p| && i in ranks && i !in p ==> Before(ranks[p[k]], ranks[i]))
      && (|p| < max ==> |p| == |ranks|)
  {
    hide Before, Candidates;
    if max > 0 { FirstIsFirst(Candidates(s, q, now), max); }
  }

  lemma AllPicked(s: Store, q: string, max: int, now: Time, u: JobId)
    requires |Picked(s, q, max, now)| < max && u in Candidates(s, q, now)
    ensures u in Picked(s, q, max, now)
  {
    hide Before, Candidates, First, IsFirst;
    var p, ranks := Picked(s, q, max, now), Candidates(s, q, now);
    PickedOrder(s, q, max, now);
    DistinctCount(p);
    assert Elements(p) <= ranks.Keys && |Elements(p)| == |ranks.Keys|;
    SameSizeSubset(Elements(p), ranks.Keys);
    assert u in Elements(p);
  }

  lemma RankOrder(s: Store, q: string, now: Time, a: JobId, b: JobId)
    requires KeysOk(s) && DueOk(s)
    requires a in Candidates(s, q, now) && b in Candidates(s, q, now)
    requires Before(Candidates(s, q, now)[a], Candidates(s, q, now)[b])
    ensures Precedes(s.jobs[a], s.jobs[b])
  {
    hide Candidates;
    CandidatesMayStart(s, q, now);
  }

  lemma SameOrder(a: Row, b: Row, a': Row, b': Row)
    requires a'.spec == a.spec && a'.scheduledAt == a.scheduledAt && a'.id == a.id
    requires b'.spec == b.spec && b'.scheduledAt == b.scheduledAt && b'.id == b.id
    ensures Precedes(a, b) <==> Precedes(a', b')
  {}

  /**
   In every reachable store a row that waits and has attempts left has its due entry and is started by some claim at
   any time from its due time on; a row in any other state is started by none.
   */
  lemma WaitingJobsAreServed(ops: seq<Op>, id: JobId, at: Time)
    requires WellFormedRun(ops) && Now(ops, id).Some?
    ensures
      var r, s := Now(ops, id).value, Exec(ops);
      && ((r.state == Available || r.state == Scheduled || r.state == Retryable) && r.attempt < r.spec.maxAttempts ==>
            var key := DueKey(r.spec.queue, id);
            && key in s.due && s.due[key] == r.scheduledAt
            && (r.scheduledAt <= at ==> exists max :: EventOf(s, Claim(r.spec.queue, "", max, at), id) == Started))
      && (r.state == Pending || r.state == Running ==> !Startable(s, id))
      && (r.state == Completed || r.state == Failed || r.state == Cancelled ==> !Startable(s, id))
  {
    hide Exec, WellFormed, KeysOk, UuidsOk, RunningOk, RowsOk, Startable, Picked, Candidates;
    var s := Exec(ops);
    ReachableInv(ops);
    StartableIffReady(s, id);
    var r := s.jobs[id];
    if r.scheduledAt <= at && Ready(r) {
      EveryoneIsPicked(s, r.spec.queue, at, id);
      assert EventOf(s, Claim(r.spec.queue, "", |Candidates(s, r.spec.queue, at)|, at), id) == Started;
    }
  }

  /**
   A claim looks at every due entry of its queue and forgets those of jobs that cannot start; entries that are not due
   and those of other queues stay.
   */
  lemma ClaimTidiesDue(s: Store, q: string, node: string, max: int, now: Time, key: DueKey)
    requires Inv(s) && max > 0
    ensures
      var t := Apply(s, Claim(q, node, max, now));
      && (key in t.due ==> key in s.due && t.due[key] == s.due[key])
      && (key in s.due && (key.queue != q || s.due[key] > now) ==> key in t.due)
      && (key in t.due && key.queue == q && t.due[key] <= now ==>
            key.id in s.jobs && MayStart(s.jobs[key.id], q, now) && RowAt(t, key.id) == RowAt(s, key.id))
  {
    hide KeysOk, UuidsOk, RunningOk, RowsOk, Candidates, Picked, MayStart, ClaimRow;
    CandidatesMayStart(s, q, now);
  }

  /** Maintenance leaves no index entry behind: none of a job that is gone, none of a claim that has timed out. */
  lemma MaintenanceTidies(s: Store, timeout: int, before: Time, states: set<State>, now: Time, id: JobId)
    ensures id in Apply(s, RequeueStale(timeout, now)).running ==>
              id in s.running && s.running[id] > now - timeout
    ensures
      var t := Apply(s, Prune(before, states));
      states != {} && id in t.created && t.created[id] < before ==> id in t.jobs && t.jobs[id].state !in states
    ensures
      var t := Apply(s, Prune(before, states));
      states != {} && id in s.created && s.created[id] < before && id !in t.jobs ==> id !in t.ids && id !in t.created
  {}

  // ---------------------------------------------------------------- enqueue

  /**
   An enqueue is refused exactly if a row has no uuid, or one that a stored job or an earlier row has; a refusal changes
   nothing, also not the counter.
   */
  lemma EnqueueRefusedIff(s: Store, rows: seq<Row>)
    requires Inv(s)
    ensures Answer(s, Enqueue(rows)).Refused? <==>
            exists k :: 0 <= k < |rows| && Repeated(s, rows, k)
    ensures Answer(s, Enqueue(rows)).Refused? ==>
              Answer(s, Enqueue(rows)) == Refused(DuplicateUuid) && Apply(s, Enqueue(rows)) == s
  {
    hide KeysOk, DueOk, RunningOk, RowsOk;
    forall k | 0 <= k < |rows|
      ensures ClashAt(s, rows, k) <==> Repeated(s, rows, k)
    {
      var uuid := rows[k].spec.uuid;
      if uuid in s.uuids { assert s.jobs[s.uuids[uuid]].spec.uuid == uuid; }
    }
  }

  ghost predicate Repeated(s: Store, rows: seq<Row>, k: nat)
    requires k < |rows|
  {
    || rows[k].spec.uuid == ""
    || (exists i :: i in s.jobs && s.jobs[i].spec.uuid == rows[k].spec.uuid)
    || (exists j :: 0 <= j < k && rows[j].spec.uuid == rows[k].spec.uuid)
  }

  /**
   An accepted enqueue numbers the rows after the counter and stores each with its indexes; a row gets a due entry, at
   its due time, exactly if it is available, scheduled or retryable.
   */
  lemma EnqueueStores(s: Store, rows: seq<Row>, k: nat)
    requires Inv(s) && Answer(s, Enqueue(rows)).Inserted? && k < |rows|
    ensures
      var t, id, key := Apply(s, Enqueue(rows)), s.nextId + 1 + k, DueKey(rows[k].spec.queue, s.nextId + 1 + k);
      && Answer(s, Enqueue(rows)).ids[k] == id && t.nextId == s.nextId + |rows|
      && id in t.jobs && t.jobs[id] == rows[k].(id := id)
      && (key in t.due <==> Waits(rows[k])) && (key in t.due ==> t.due[key] == rows[k].scheduledAt)
      && (forall i :: i in s.jobs ==> i in t.jobs && t.jobs[i] == s.jobs[i])
  {
    hide Clashes, InsertAll, UuidsOk, RunningOk, RowsOk;
    var t, id := Apply(s, Enqueue(rows)), s.nextId + 1 + k;
    InsertAllAt(s, rows, id);
    forall i | i in s.jobs
      ensures i in t.jobs && t.jobs[i] == s.jobs[i]
    {
      InsertAllAt(s, rows, i);
      assert RowAt(t, i) == RowAt(s, i);
    }
    assert RowAt(t, id) == Some(rows[k].(id := id));
    InsertAllDue(s, rows, k);
  }

  lemma {:induction false} InsertAllDue(s: Store, rows: seq<Row>, k: nat)
    requires DueSound(s) && KeysOk(s) && k < |rows|
    ensures
      var t, key := InsertAll(s, rows), DueKey(rows[k].spec.queue, s.nextId + 1 + k);
      (key in t.due <==> Waits(rows[k])) && (key in t.due ==> t.due[key] == rows[k].scheduledAt)
    decreases |rows|
  {
    hide KeysOk, DueSound;
    var front := Front(rows);
    InsertAllAt(s, front, 0);
    WaitsIsClaimable(Last(rows));
    if k < |front| {
      InsertAllDue(s, front, k);
    } else {
      NoDueYet(s, front, s.nextId + |rows|, rows[k].spec.queue);
    }
  }

  lemma {:induction false} NoDueYet(s: Store, rows: seq<Row>, id: JobId, q: string)
    requires DueSound(s) && KeysOk(s) && id > s.nextId + |rows|
    ensures DueKey(q, id) !in InsertAll(s, rows).due
    decreases |rows|
  {
    if rows != [] {
      NoDueYet(s, Front(rows), id, q);
      InsertAllAt(s, Front(rows), 0);
    }
  }

  // ---------------------------------------------------------------- which states a step accepts

  /** What the single calls answer, by the state of the job. */
  lemma AcceptedStates(s: Store, t: Table, id: JobId, text: string, at: Time, now: Time)
    requires Inv(s) && Agree(s.jobs, t)
    ensures id !in s.jobs ==>
              && Answer(s, Retry(id, now)) == Refused(NotFound) && Answer(s, Cancel(id, now)) == Refused(NotFound)
              && Answer(s, Complete(id, text, now)) == Refused(NotFound) &&
                   Answer(s, Fail(id, text, now)) == Refused(NotFound)
              && Answer(s, ScheduleRetry(id, text, at, now)) == Refused(NotFound)
    ensures id in s.jobs ==>
              match s.jobs[id].state
              case Pending => Accepts(s, t, id, text, at, now, false, true, false, false)
              case Scheduled => Accepts(s, t, id, text, at, now, false, true, false, false)
              case Available => Accepts(s, t, id, text, at, now, false, true, false, false)
              case Running => Accepts(s, t, id, text, at, now, false, false, true, true)
              case Completed => Accepts(s, t, id, text, at, now, true, false, false, false)
              case Retryable => Accepts(s, t, id, text, at, now, true, true, false, true)
              case Failed => Accepts(s, t, id, text, at, now, true, false, false, false)
              case Cancelled => Accepts(s, t, id, text, at, now, true, false, false, false)
  {
    hide Inv, View, Accepts, Agree;
    if id in s.jobs {
      AcceptsBy(s, t, id, text, at, now);
    } else {
      assert Screen(s.jobs, [id], CanRetry) == Some(NotFound) && Screen(s.jobs, [id], CanCancel) == Some(NotFound);
    }
  }

  lemma AcceptsBy(s: Store, t: Table, id: JobId, text: string, at: Time, now: Time)
    requires Agree(s.jobs, t) && id in s.jobs
    ensures
      var r := s.jobs[id];
      Accepts(s, t, id, text, at, now, CanRetry(r), CanCancel(r), r.state.Running?, CanFail(r))
  {
    hide View;
    SameColumns(s.jobs[id], t[id]);
    assert Screen(s.jobs, [id][1..], CanRetry).None? && Screen(s.jobs, [id][1..], CanCancel).None?;
  }

  /** The calls a job takes: retry, cancel, finish (complete or put off) and fail; both drivers alike. */
  ghost predicate Accepts(s: Store, t: Table, id: JobId, text: string, at: Time, now: Time,
                          retry: bool, cancel: bool, finish: bool, fail: bool)
  {
    && Answer(s, Retry(id, now)) == (if retry then Done else Refused(InvalidTransition))
    && Answer(s, Cancel(id, now)) == (if cancel then Done else Refused(InvalidTransition))
    && Answer(s, Complete(id, text, now)) == (if finish then Done else Refused(NotFound))
    && Answer(s, ScheduleRetry(id, text, at, now)) == (if finish then Done else Refused(NotFound))
    && Answer(s, Fail(id, text, now)) == (if fail then Done else Refused(NotFound))
    && SqlOutcome(t, Retry(id, now)) == Accepted(retry) && SqlOutcome(t, Cancel(id, now)) == Accepted(cancel)
    && SqlOutcome(t, Complete(id, text, now)) == Accepted(finish)
    && SqlOutcome(t, ScheduleRetry(id, text, at, now)) == Accepted(finish)
    && SqlOutcome(t, Fail(id, text, now)) == Accepted(fail)
  }
}
