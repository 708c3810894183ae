/** Batch Retry and Cancel in Redis: all or nothing, and a matter of which ids, not of how they are listed. */
module Batches {
  import opened Types
  import opened RowSteps
  import opened JobStore
  import opened StoreLoops
  import opened Refinement

  /** One missing or disallowed id, and the whole store stays as it was. */
  lemma RetryAllOrNothing(s: Store, ids: seq<JobId>, now: Time)
    ensures !AllAllowed(s.jobs, ids, CanRetry) ==>
              RetryStore(s, ids, now) == s && Answer(s, RetryBatch(ids, now)).Refused?
    ensures AllAllowed(s.jobs, ids, CanRetry) ==>
              RetryStore(s, ids, now) == RetrySome(s, Elements(ids), now) && Answer(s, RetryBatch(ids, now)) == Done
  {
    hide RetrySome, CanRetry, Elements;
    ScreenPasses(s.jobs, ids, CanRetry);
  }

  lemma CancelAllOrNothing(s: Store, ids: seq<JobId>, now: Time)
    ensures !AllAllowed(s.jobs, ids, CanCancel) ==>
              CancelStore(s, ids, now) == s && Answer(s, CancelBatch(ids, now)).Refused?
    ensures AllAllowed(s.jobs, ids, CanCancel) ==>
              CancelStore(s, ids, now) == CancelSome(s, Elements(ids), now) && Answer(s, CancelBatch(ids, now)) == Done
  {
    hide CancelSome, CanCancel, Elements;
    ScreenPasses(s.jobs, ids, CanCancel);
  }

  /** Order and repetition of the ids do not matter. */
  lemma BatchIsASet(s: Store, a: seq<JobId>, b: seq<JobId>, now: Time)
    requires Elements(a) == Elements(b)
    ensures RetryStore(s, a, now) == RetryStore(s, b, now)
    ensures CancelStore(s, a, now) == CancelStore(s, b, now)
  {
    hide RetryStore, CancelStore, RetrySome, CancelSome, CanRetry, CanCancel;
    assert forall i :: i in a <==> i in Elements(a);
    assert forall i :: i in b <==> i in Elements(b);
    RetryAllOrNothing(s, a, now);
    RetryAllOrNothing(s, b, now);
    CancelAllOrNothing(s, a, now);
    CancelAllOrNothing(s, b, now);
  }

  ghost function RetryEach(s: Store, ids: seq<JobId>, now: Time): Store {
    if ids == [] then s else RetryStore(RetryEach(s, Front(ids), now), [Last(ids)], now)
  }

  ghost function CancelEach(s: Store, ids: seq<JobId>, now: Time): Store {
    if ids == [] then s else CancelStore(CancelEach(s, Front(ids), now), [Last(ids)], now)
  }

  lemma RetrySingle(s: Store, id: JobId, now: Time)
    requires id in s.jobs && CanRetry(s.jobs[id])
    ensures RetryStore(s, [id], now) ==
            s.(jobs := s.jobs[id := RetryRow(s.jobs[id], now)],
               due := s.due[DueKey(s.jobs[id].spec.queue, id) := now],
               running := s.running - {id})
  {
    hide RetrySome, RetryRow, CanRetry;
    RetryAllOrNothing(s, [id], now);
    assert Elements([id]) == {} + {id};
    RetryNone(s, now);
    RetryNext(s, {}, id, now);
  }

  lemma CancelSingle(s: Store, id: JobId, now: Time)
    requires id in s.jobs && CanCancel(s.jobs[id])
    ensures CancelStore(s, [id], now) ==
            s.(jobs := s.jobs[id := CancelRow(s.jobs[id], now)], due := s.due - {DueKey(s.jobs[id].spec.queue, id)})
  {
    hide CancelSome, CancelRow, CanCancel;
    CancelAllOrNothing(s, [id], now);
    assert Elements([id]) == {} + {id};
    CancelNone(s, now);
    CancelNext(s, {}, id, now);
  }

  lemma UntouchedRow(jobs: map<JobId, Row>, ids: set<JobId>, edit: Edit, id: JobId)
    requires id in jobs && id !in ids
    ensures id in Rewrite(jobs, ids, edit) && Rewrite(jobs, ids, edit)[id] == jobs[id]
  {}

  lemma {:induction false} RetryEachIs(s: Store, ids: seq<JobId>, now: Time)
    requires Distinct(ids) && AllAllowed(s.jobs, ids, CanRetry)
    ensures RetryEach(s, ids, now) == RetrySome(s, Elements(ids), now)
  {
    hide CanRetry, RetryRow, Rewrite, AddAll, DueKeys, RetryStore, Elements;
    if ids == [] {
      ElementsNone(ids);
      RetryNone(s, now);
    } else {
      var front, id := Front(ids), Last(ids);
      RetryEachIs(s, front, now);
      ElementsStep(ids, |ids| - 1);
      DistinctStep(ids, |ids| - 1);
      assert ids[..|ids| - 1 + 1] == ids;
      UntouchedRow(s.jobs, Elements(front), RetryEdit(now), id);
      RetrySingle(RetrySome(s, Elements(front), now), id, now);
      RetryNext(s, Elements(front), id, now);
    }
  }

  lemma {:induction false} CancelEachIs(s: Store, ids: seq<JobId>, now: Time)
    requires Distinct(ids) && AllAllowed(s.jobs, ids, CanCancel)
    ensures CancelEach(s, ids, now) == CancelSome(s, Elements(ids), now)
  {
    hide CanCancel, CancelRow, Rewrite, DueKeys, CancelStore, Elements;
    if ids == [] {
      ElementsNone(ids);
      CancelNone(s, now);
    } else {
      var front, id := Front(ids), Last(ids);
      CancelEachIs(s, front, now);
      ElementsStep(ids, |ids| - 1);
      DistinctStep(ids, |ids| - 1);
      assert ids[..|ids| - 1 + 1] == ids;
      UntouchedRow(s.jobs, Elements(front), CancelEdit(now), id);
      CancelSingle(CancelSome(s, Elements(front), now), id, now);
      CancelNext(s, Elements(front), id, now);
    }
  }

  /** A batch, however listed, does what single calls on its distinct ids do, in any order. */
  lemma BatchIsSingles(s: Store, ids: seq<JobId>, each: seq<JobId>, now: Time)
    requires Distinct(each) && Elements(each) == Elements(ids)
    ensures AllAllowed(s.jobs, ids, CanRetry) ==> RetryStore(s, ids, now) == RetryEach(s, each, now)
    ensures AllAllowed(s.jobs, ids, CanCancel) ==> CancelStore(s, ids, now) == CancelEach(s, each, now)
  {
    hide RetryStore, CancelStore, RetrySome, CancelSome, CanRetry, CanCancel;
    assert forall i :: i in ids <==> i in Elements(ids);
    assert forall i :: i in each <==> i in Elements(each);
    RetryAllOrNothing(s, ids, now);
    CancelAllOrNothing(s, ids, now);
    if AllAllowed(s.jobs, ids, CanRetry) { RetryEachIs(s, each, now); }
    if AllAllowed(s.jobs, ids, CanCancel) { CancelEachIs(s, each, now); }
  }
}
