/** Short runs from the empty store that reach the cases in which the drivers part or a job gets stuck. */
module Witnesses {
  import opened Types
  import opened RowSteps
  import opened JobStore
  import opened StoreInvariant
  import opened SqlTable
  import opened Refinement
  import opened Runs
  import opened StateMachine
  import opened Worker
  import opened WorkerLoop

  /** A dispatched job with the given number of attempts. */
  function Fresh(maxAttempts: int): (r: Row)
    ensures InitialRow(r)
  {
    var spec := Spec("u", "q", "k", "", [], map[], 0, maxAttempts, "", 0, 0);
    Row(0, spec, Available, 0, [], None, [], None, 0, None, None, None, "")
  }

  function Stored(maxAttempts: int): Row {
    Fresh(maxAttempts).(id := 1)
  }

  /** The store is consistent and holds one job. */
  ghost predicate Only(s: Store, r: Row) {
    Inv(s) && s.jobs == map[1 := r]
  }

  // ---------------------------------------------------------------- steps

  lemma AddedOnly(maxAttempts: int) returns (s: Store)
    ensures s == Exec([Enqueue([Fresh(maxAttempts)])]) && Only(s, Stored(maxAttempts))
  {
    hide Inv, WellFormed, Clashes, InsertAll;
    var rows := [Fresh(maxAttempts)];
    var ops := [Enqueue(rows)];
    s := Exec(ops);
    assert Front(ops) == [];
    NoClash(rows);
    InsertOne(rows);
    AllWellFormed(ops);
    ReachableInv(ops);
  }

  lemma InsertOne(rows: seq<Row>)
    requires |rows| == 1
    ensures InsertAll(EMPTY, rows).jobs == map[1 := rows[0].(id := 1)]
  {
    assert InsertAll(EMPTY, Front(rows)) == EMPTY;
  }

  lemma AllWellFormed(ops: seq<Op>)
    requires forall k :: 0 <= k < |ops| ==> ops[k].Enqueue? ==> |ops[k].rows| == 1 && InitialRow(ops[k].rows[0])
    ensures WellFormedRun(ops)
  {}

  lemma NoClash(rows: seq<Row>)
    requires |rows| == 1 && rows[0].spec.uuid != ""
    ensures !Clashes(EMPTY, rows)
  {}

  lemma ClaimedOnly(s: Store, r: Row, node: string, now: Time)
    requires Only(s, r) && Ready(r) && r.scheduledAt <= now
    ensures Only(Apply(s, Claim(r.spec.queue, node, 1, now)), ClaimRow(r, node, now))
    ensures EventOf(s, Claim(r.spec.queue, node, 1, now), 1) == Started
  {
    hide Inv, ClaimStore, ClaimRow, Picked, Ready;
    var op := Claim(r.spec.queue, node, 1, now);
    ApplyInv(s, op);
    var id := AfterClaim(s, r.spec.queue, node, now, 1);
    PickedNow(s, r.spec.queue, now, 1);
  }

  lemma PickedNow(s: Store, q: string, now: Time, id: JobId)
    requires Inv(s) && s.jobs.Keys == {id} && s.jobs[id].spec.queue == q && Ready(s.jobs[id]) &&
               s.jobs[id].scheduledAt <= now
    ensures id in Picked(s, q, 1, now)
  {
    hide KeysOk, UuidsOk, RunningOk, RowsOk, DueOk, Picked, Ready, Candidates;
    var p := SomeoneIsPicked(s, q, now, id);
    PickedReady(s, q, 1, now);
    assert p in Picked(s, q, 1, now);
  }

  lemma RequeuedOnly(s: Store, r: Row, timeout: int, now: Time)
    requires Only(s, r) && r.state.Running? && r.attemptedAt.Some? && r.attemptedAt.value + timeout <= now
    ensures Only(Apply(s, RequeueStale(timeout, now)), RequeueRow(r, now))
    ensures EventOf(s, RequeueStale(timeout, now), 1) == Requeued
  {
    hide Inv, RequeueStaleStore, RequeueRow, Stale;
    ApplyInv(s, RequeueStale(timeout, now));
    RequeuedRows(s, timeout, now);
    StaleNow(s, r, now - timeout);
  }

  lemma StaleNow(s: Store, r: Row, cutoff: Time)
    requires Only(s, r) && r.state.Running? && r.attemptedAt.Some? && r.attemptedAt.value <= cutoff
    ensures 1 in Stale(s, cutoff)
  {
    hide KeysOk, UuidsOk, DueOk, RowsOk;
    assert 1 in s.running;
  }

  lemma PutOffOnly(s: Store, r: Row, message: string, at: Time, now: Time)
    requires Only(s, r) && r.state.Running?
    ensures Only(Apply(s, ScheduleRetry(1, message, at, now)), ScheduleRetryRow(r, message, at, now))
    ensures EventOf(s, ScheduleRetry(1, message, at, now), 1) == Deferred
  {
    hide Inv, ScheduleRetryRow;
    ApplyInv(s, ScheduleRetry(1, message, at, now));
  }

  lemma CancelledOnly(s: Store, r: Row, now: Time)
    requires Only(s, r) && CanCancel(r)
    ensures Only(Apply(s, Cancel(1, now)), CancelRow(r, now))
  {
    hide Inv, CancelRow, CanCancel, CancelStore;
    ApplyInv(s, Cancel(1, now));
    CancelledRows(s, [1], now);
  }

  lemma RetriedOnly(s: Store, r: Row, now: Time)
    requires Only(s, r) && CanRetry(r)
    ensures Only(Apply(s, Retry(1, now)), RetryRow(r, now))
  {
    hide Inv, RetryRow, CanRetry, RetryStore;
    ApplyInv(s, Retry(1, now));
    RetriedRows(s, [1], now);
  }

  lemma ExecNext(ops: seq<Op>, op: Op)
    ensures Exec(ops + [op]) == Apply(Exec(ops), op)
    ensures RunBoth(ops + [op]).0 == Apply(RunBoth(ops).0, op)
    ensures RunBoth(ops + [op]).1 == SqlApply(RunBoth(ops).1, op, RunBoth(ops).0.nextId)
  {
    hide Apply, SqlApply;
    assert Front(ops + [op]) == ops;
  }

  // ---------------------------------------------------------------- stuck jobs

  /** Node a claims a job and is then taken for dead. */
  function StaleRun(maxAttempts: int): seq<Op> {
    [Enqueue([Fresh(maxAttempts)])] + [Claim("q", "a", 1, 0)] + [RequeueStale(0, 0)]
  }

  lemma StaleOnly(maxAttempts: int)
    requires maxAttempts >= 1
    ensures
      var ops, r := StaleRun(maxAttempts), ClaimRow(Stored(maxAttempts), "a", 0);
      && WellFormedRun(ops) && Only(Exec(ops[..2]), r) && Only(Exec(ops), RequeueRow(r, 0))
      && EventAt(ops, 1, 1) == Started
  {
    hide Exec, Inv, Apply, WellFormed, ClaimRow, RequeueRow, EventOf;
    var s1 := AddedOnly(maxAttempts);
    var p1 := [Enqueue([Fresh(maxAttempts)])];
    var p2, r := p1 + [Claim("q", "a", 1, 0)], ClaimRow(Stored(maxAttempts), "a", 0);
    ExecNext(p1, Claim("q", "a", 1, 0));
    ClaimedOnly(s1, Stored(maxAttempts), "a", 0);
    ExecNext(p2, RequeueStale(0, 0));
    ClaimColumns(Stored(maxAttempts), "a", 0);
    RequeuedOnly(Exec(p2), r, 0, 0);
    AllWellFormed(StaleRun(maxAttempts));
    assert StaleRun(maxAttempts)[..1] == p1 && StaleRun(maxAttempts)[..2] == p2;
  }

  lemma ClaimColumns(r: Row, node: string, now: Time)
    ensures var r' := ClaimRow(r, node, now);
            r'.state.Running? && r'.attemptedAt == Some(now) && r'.attempt == r.attempt + 1 && r'.spec == r.spec
    ensures var r' := RequeueRow(ClaimRow(r, node, now), now);
            r'.state.Available? && r'.attempt == r.attempt + 1 && r'.spec == r.spec && r'.scheduledAt == now
  {}

  /** A job requeued as stale on its last attempt is available, and no claim will ever start it. */
  lemma StuckJob()
    ensures WellFormedRun(StaleRun(1)) && Now(StaleRun(1), 1).Some? && Now(StaleRun(1), 1).value.state.Available?
    ensures !Startable(Exec(StaleRun(1)), 1)
  {
    hide Exec, Inv, Startable, WellFormed, ClaimRow, RequeueRow, EventOf, StaleRun;
    StaleOnly(1);
    ClaimColumns(Stored(1), "a", 0);
    StartableIffReady(Exec(StaleRun(1)), 1);
  }

  /** Two attempts: a claims, is taken for dead, b claims, and then a reports its failed first attempt. */
  function LateRun(): seq<Op> {
    StaleRun(2) + [Claim("q", "b", 1, 0)] + [ScheduleRetry(1, "", 0, 0)]
  }

  lemma LateOnly()
    ensures
      var r := RequeueRow(ClaimRow(Stored(2), "a", 0), 0);
      && Only(Exec(LateRun()), ScheduleRetryRow(ClaimRow(r, "b", 0), "", 0, 0))
      && EventAt(LateRun(), 1, 4) == Deferred
  {
    hide Exec, Inv, Apply, WellFormed, ClaimRow, RequeueRow, ScheduleRetryRow, EventOf;
    StaleOnly(2);
    ClaimColumns(Stored(2), "a", 0);
    var p3, r := StaleRun(2), RequeueRow(ClaimRow(Stored(2), "a", 0), 0);
    var p4 := p3 + [Claim("q", "b", 1, 0)];
    ExecNext(p3, Claim("q", "b", 1, 0));
    ExecNext(p4, ScheduleRetry(1, "", 0, 0));
    ClaimedOnly(Exec(p3), r, "b", 0);
    ClaimColumns(r, "b", 0);
    PutOffOnly(Exec(p4), ClaimRow(r, "b", 0), "", 0, 0);
    assert LateRun()[..4] == p4;
  }

  /** The late report is a put-off on a retryable verdict, and it strands the job. */
  lemma LatePutOffStrands()
    ensures WellFormedRun(LateRun()) && PutsOffClaim(LateRun(), 1, 1, 4)
    ensures Now(LateRun(), 1).Some? && Now(LateRun(), 1).value.state.Retryable?
    ensures !Startable(Exec(LateRun()), 1)
  {
    hide Exec, Inv, Startable, WellFormed, EventOf, ClaimRow, RequeueRow;
    StaleOnly(2);
    LateOnly();
    ClaimColumns(Stored(2), "a", 0);
    ClaimColumns(RequeueRow(ClaimRow(Stored(2), "a", 0), 0), "b", 0);
    AllWellFormed(LateRun());
    assert LateRun()[..1] == StaleRun(2)[..1] && LateRun()[..2] == StaleRun(2)[..2];
    StartableIffReady(Exec(LateRun()), 1);
  }

  // ---------------------------------------------------------------- revival

  /** Retry takes a cancelled job back to available, which no path of the transition table does. */
  lemma CancelledIsRevived() returns (ops: seq<Op>)
    ensures WellFormedRun(ops) && ops != [] && Now(Front(ops), 1).Some? && Now(ops, 1).Some?
    ensures Now(Front(ops), 1).value.state.Cancelled? && Now(ops, 1).value.state.Available?
    ensures !Reaches(Now(Front(ops), 1).value.state, Now(ops, 1).value.state)
  {
    hide Exec, Inv, Apply, WellFormed, Reaches;
    var s1 := AddedOnly(1);
    var p1 := [Enqueue([Fresh(1)])];
    var p2 := p1 + [Cancel(1, 0)];
    ops := p2 + [Retry(1, 0)];
    ExecNext(p1, Cancel(1, 0));
    ExecNext(p2, Retry(1, 0));
    CancelledOnly(s1, Stored(1), 0);
    RetriedOnly(Exec(p2), CancelRow(Stored(1), 0), 0);
    assert Front(ops) == p2;
    AllWellFormed(ops);
    CancelledIsFinal(Available);
  }

  // ---------------------------------------------------------------- the drivers part

  lemma {:induction false} RunBothIsExec(ops: seq<Op>)
    ensures RunBoth(ops).0 == Exec(ops)
  {
    hide Apply;
    if ops != [] { RunBothIsExec(Front(ops)); }
  }

  /** The drivers are in step after `ops`, and no longer after `op`. */
  ghost predicate PartAt(ops: seq<Op>, op: Op) {
    WellFormedRun(ops + [op]) && InStep(ops) && !InStep(ops + [op])
  }

  lemma PartsIff(ops: seq<Op>, op: Op)
    requires WellFormedRun(ops) && WellFormed(op) && ComparableRun(ops)
    ensures InStep(ops) && (PartAt(ops, op) <==> !Comparable(Exec(ops), op))
  {
    hide Exec, InStep, Comparable, WellFormed;
    DriversAgreeIff(ops);
    DriversAgreeIff(ops + [op]);
    assert Front(ops + [op]) == ops;
    RunBothIsExec(ops);
  }

  lemma AddedComparable(maxAttempts: int)
    ensures WellFormedRun([Enqueue([Fresh(maxAttempts)])]) && ComparableRun([Enqueue([Fresh(maxAttempts)])])
  {
    hide Exec, WellFormed;
    var ops := [Enqueue([Fresh(maxAttempts)])];
    AllWellFormed(ops);
    assert Front(ops) == [];
  }

  /** A batch with one good and one missing id: SQL cancels the good one, Redis refuses. */
  lemma MixedBatchParts()
    ensures PartAt([Enqueue([Fresh(1)])], CancelBatch([1, 2], 0))
  {
    hide Exec, Inv, InStep, PartAt;
    var s := AddedOnly(1);
    var ids := [1, 2];
    AddedComparable(1);
    assert ids[0] in s.jobs && ids[1] !in s.jobs;
    PartsIff([Enqueue([Fresh(1)])], CancelBatch(ids, 0));
  }

  /** A job claimed exactly `timeout` ago: Redis requeues it, SQL does not. */
  lemma CutoffParts()
    ensures PartAt([Enqueue([Fresh(1)])] + [Claim("q", "a", 1, 0)], RequeueStale(0, 0))
  {
    hide Exec, Inv, InStep, PartAt, Apply, WellFormed, ClaimRow, AllAllowed, OnTheDot;
    var s := AddedOnly(1);
    var p1 := [Enqueue([Fresh(1)])];
    var p2 := p1 + [Claim("q", "a", 1, 0)];
    AddedComparable(1);
    ExecNext(p1, Claim("q", "a", 1, 0));
    ClaimedOnly(s, Stored(1), "a", 0);
    assert Front(p2) == p1;
    AllWellFormed(p2);
    ClaimColumns(Stored(1), "a", 0);
    RunningAt(Exec(p2), ClaimRow(Stored(1), "a", 0));
    AllWellFormed([RequeueStale(0, 0)]);
    assert [RequeueStale(0, 0)][0] == RequeueStale(0, 0);
    PartsIff(p2, RequeueStale(0, 0));
  }

  lemma RunningAt(s: Store, r: Row)
    requires Only(s, r) && r.state.Running? && r.attemptedAt.Some?
    ensures OnTheDot(s, r.attemptedAt.value)
  {
    hide KeysOk, UuidsOk, DueOk, RowsOk;
    assert 1 in s.running;
  }

  /** A refused batch of one: the rows stay in step, but Redis reports the refusal and SQL reports success. */
  lemma RefusedBatchOfOne()
    ensures
      var ops, op := [Enqueue([Fresh(1)])], RetryBatch([1], 0);
      && WellFormedRun(ops + [op]) && InStep(ops + [op])
      && RedisOutcome(RunBoth(ops).0, op) == Accepted(false) && SqlOutcome(RunBoth(ops).1, op) == Accepted(true)
  {
    hide Exec, Inv, InStep, Screen;
    var s := AddedOnly(1);
    var ops, op := [Enqueue([Fresh(1)])], RetryBatch([1], 0);
    AddedComparable(1);
    PartsIff(ops, op);
    RunBothIsExec(ops);
    AllWellFormed(ops + [op]);
    ScreenPasses(s.jobs, [1], CanRetry);
    assert [1][0] in [1] && !CanRetry(s.jobs[1]);
  }
}
