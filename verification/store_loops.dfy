/** How a script's effect on a set of ids grows by one id. */
module StoreLoops {
  import opened Types
  import opened RowSteps
  import opened JobStore

  lemma RewriteNext(jobs: map<JobId, Row>, ids: set<JobId>, edit: Edit, id: JobId)
    requires id in jobs
    ensures Rewrite(jobs, ids, edit)[id := edit.Of(jobs[id])] == Rewrite(jobs, ids + {id}, edit)
  {}

  lemma DueKeysNext(jobs: map<JobId, Row>, ids: set<JobId>, id: JobId)
    requires id in jobs
    ensures DueKeys(jobs, ids + {id}) == DueKeys(jobs, ids) + {DueKey(jobs[id].spec.queue, id)}
  {}

  lemma AddAllNext<K>(z: map<K, Time>, keys: set<K>, k: K, score: Time)
    ensures AddAll(z, keys, score)[k := score] == AddAll(z, keys + {k}, score)
  {}

  lemma RemoveNext<K, V>(m: map<K, V>, keys: set<K>, k: K)
    ensures m - keys - {k} == m - (keys + {k})
  {}

  lemma RetryNone(s: Store, now: Time)
    ensures RetrySome(s, {}, now) == s
  {
    assert Rewrite(s.jobs, {}, RetryEdit(now)) == s.jobs;
    assert s.running - {} == s.running;
    assert DueKeys(s.jobs, {}) == {};
    assert AddAll(s.due, {}, now) == s.due;
  }

  lemma RetryNext(s: Store, ids: set<JobId>, id: JobId, now: Time)
    requires id in s.jobs
    ensures
      var t := RetrySome(s, ids, now);
      RetrySome(s, ids + {id}, now) ==
      t.(jobs := t.jobs[id := RetryRow(s.jobs[id], now)],
         due := t.due[DueKey(s.jobs[id].spec.queue, id) := now],
         running := t.running - {id})
  {
    RewriteNext(s.jobs, ids, RetryEdit(now), id);
    DueKeysNext(s.jobs, ids, id);
    AddAllNext(s.due, DueKeys(s.jobs, ids), DueKey(s.jobs[id].spec.queue, id), now);
    RemoveNext(s.running, ids, id);
  }

  lemma CancelNone(s: Store, now: Time)
    ensures CancelSome(s, {}, now) == s
  {
    assert Rewrite(s.jobs, {}, CancelEdit(now)) == s.jobs;
    assert DueKeys(s.jobs, {}) == {};
    assert s.due - {} == s.due;
  }

  lemma CancelNext(s: Store, ids: set<JobId>, id: JobId, now: Time)
    requires id in s.jobs
    ensures
      var t := CancelSome(s, ids, now);
      CancelSome(s, ids + {id}, now) ==
      t.(jobs := t.jobs[id := CancelRow(s.jobs[id], now)], due := t.due - {DueKey(s.jobs[id].spec.queue, id)})
  {
    RewriteNext(s.jobs, ids, CancelEdit(now), id);
    DueKeysNext(s.jobs, ids, id);
    RemoveNext(s.due, DueKeys(s.jobs, ids), DueKey(s.jobs[id].spec.queue, id));
  }

  // ---------------------------------------------------------------- claim

  function QueueKeys(q: string, ids: set<JobId>): (keys: set<DueKey>)
    ensures forall k :: k in keys <==> k.queue == q && k.id in ids
  {
    set i | i in ids :: DueKey(q, i)
  }

  function Forget(s: Store, q: string, ids: set<JobId>): Store {
    s.(due := s.due - QueueKeys(q, ids))
  }

  function Unready(s: Store, ids: set<JobId>): set<JobId> {
    set i | i in ids && (i in s.jobs ==> !Ready(s.jobs[i]))
  }

  /** The due entries a claim at `now` removes because they cannot run. */
  function Dropped(s: Store, q: string, now: Time): set<JobId> {
    set k | k in s.due && k.queue == q && s.due[k] <= now && k.id !in Candidates(s, q, now) :: k.id
  }

  lemma ForgetNone(s: Store, q: string)
    ensures Forget(s, q, Unready(s, {})) == s
  {
    assert Unready(s, {}) == {} && QueueKeys(q, {}) == {};
    assert s.due - {} == s.due;
  }

  lemma ForgetNext(s: Store, q: string, seen: set<JobId>, id: JobId)
    ensures
      var t := Forget(s, q, Unready(s, seen));
      Forget(s, q, Unready(s, seen + {id})) ==
      if id in s.jobs && Ready(s.jobs[id]) then t else t.(due := t.due - {DueKey(q, id)})
    ensures Forget(s, q, Unready(s, seen)).jobs == s.jobs
  {
    var bad := Unready(s, seen);
    if id in s.jobs && Ready(s.jobs[id]) {
      assert Unready(s, seen + {id}) == bad;
    } else {
      assert Unready(s, seen + {id}) == bad + {id};
      assert QueueKeys(q, bad + {id}) == QueueKeys(q, bad) + {DueKey(q, id)};
      RemoveNext(s.due, QueueKeys(q, bad), DueKey(q, id));
    }
  }

  function ClaimSome(s: Store, q: string, ids: set<JobId>, node: string, now: Time): Store {
    s.(jobs := Rewrite(s.jobs, ids, ClaimEdit(node, now)),
       running := AddAll(s.running, ids, now),
       due := s.due - QueueKeys(q, ids))
  }

  lemma ClaimNone(s: Store, q: string, node: string, now: Time)
    ensures ClaimSome(s, q, {}, node, now) == s
  {
    assert Rewrite(s.jobs, {}, ClaimEdit(node, now)) == s.jobs;
    assert QueueKeys(q, {}) == {};
    assert s.due - {} == s.due;
    assert AddAll(s.running, {}, now) == s.running;
  }

  lemma ClaimNext(s: Store, q: string, ids: set<JobId>, id: JobId, node: string, now: Time)
    requires id in s.jobs
    ensures
      var t := ClaimSome(s, q, ids, node, now);
      ClaimSome(s, q, ids + {id}, node, now) ==
      t.(jobs := t.jobs[id := ClaimRow(s.jobs[id], node, now)],
         running := t.running[id := now],
         due := t.due - {DueKey(q, id)})
  {
    RewriteNext(s.jobs, ids, ClaimEdit(node, now), id);
    AddAllNext(s.running, ids, id, now);
    assert QueueKeys(q, ids + {id}) == QueueKeys(q, ids) + {DueKey(q, id)};
    RemoveNext(s.due, QueueKeys(q, ids), DueKey(q, id));
  }

  /** Forgetting what cannot run and claiming what was picked is the claim step. */
  lemma ClaimAssembles(s: Store, q: string, node: string, max: int, now: Time)
    requires max > 0
    ensures ClaimSome(Forget(s, q, Dropped(s, q, now)), q, Elements(Picked(s, q, max, now)), node, now) ==
            ClaimStore(s, q, node, max, now)
  {
    hide Ready, Rewrite, AddAll, Picked;
    var picked := Elements(Picked(s, q, max, now));
    var left := s.due - QueueKeys(q, Dropped(s, q, now)) - QueueKeys(q, picked);
    forall k | k in s.due
      ensures k in left <==> KeepsDue(s, q, picked, now, k)
    {}
    assert left == ClaimStore(s, q, node, max, now).due;
  }

  // ---------------------------------------------------------------- stale

  predicate IsRunning(jobs: map<JobId, Row>, id: JobId) {
    id in jobs && jobs[id].state.Running?
  }

  function RequeueOne(s: Store, id: JobId, now: Time): Store {
    if IsRunning(s.jobs, id) then
      s.(jobs := s.jobs[id := RequeueRow(s.jobs[id], now)],
         due := s.due[DueKey(s.jobs[id].spec.queue, id) := now],
         running := s.running - {id})
    else s.(running := s.running - {id})
  }

  function RunningAmong(s: Store, ids: set<JobId>): set<JobId> {
    set i | i in ids && i in s.jobs && s.jobs[i].state.Running?
  }

  function RequeueAmong(s: Store, expired: set<JobId>, now: Time): Store {
    RequeueSome(s, RunningAmong(s, expired), expired, now)
  }

  lemma RequeueNone(s: Store, now: Time)
    ensures RequeueAmong(s, {}, now) == s && RunningAmong(s, {}) == {}
  {
    assert Rewrite(s.jobs, {}, RequeueEdit(now)) == s.jobs;
    assert s.running - {} == s.running;
    assert DueKeys(s.jobs, {}) == {};
    assert AddAll(s.due, {}, now) == s.due;
  }

  lemma RequeueNext(s: Store, seen: set<JobId>, id: JobId, now: Time)
    requires id !in seen
    ensures RequeueOne(RequeueAmong(s, seen, now), id, now) == RequeueAmong(s, seen + {id}, now)
    ensures IsRunning(RequeueAmong(s, seen, now).jobs, id) == IsRunning(s.jobs, id)
    ensures |RunningAmong(s, seen + {id})| == |RunningAmong(s, seen)| + (if IsRunning(s.jobs, id) then 1 else 0)
  {
    var stale := RunningAmong(s, seen);
    RemoveNext(s.running, seen, id);
    if IsRunning(s.jobs, id) {
      assert RunningAmong(s, seen + {id}) == stale + {id};
      RewriteNext(s.jobs, stale, RequeueEdit(now), id);
      DueKeysNext(s.jobs, stale, id);
      AddAllNext(s.due, DueKeys(s.jobs, stale), DueKey(s.jobs[id].spec.queue, id), now);
    } else {
      assert RunningAmong(s, seen + {id}) == stale;
    }
  }

  lemma ExpiredIsStale(s: Store, cutoff: Time, expired: seq<JobId>)
    requires forall i :: i in expired <==> i in s.running && s.running[i] <= cutoff
    ensures Elements(expired) == Expired(s, cutoff)
    ensures RunningAmong(s, Elements(expired)) == Stale(s, cutoff)
  {}

  // ---------------------------------------------------------------- prune

  predicate IsIn(jobs: map<JobId, Row>, id: JobId, states: set<State>) {
    id in jobs && jobs[id].state in states
  }

  function DropOne(s: Store, id: JobId, states: set<State>): Store {
    if id !in s.jobs then s.(ids := s.ids - {id}, created := s.created - {id})
    else if s.jobs[id].state !in states then s
    else
      s.(jobs := s.jobs - {id},
         uuids := s.uuids - {s.jobs[id].spec.uuid},
         ids := s.ids - {id},
         created := s.created - {id},
         running := s.running - {id},
         due := s.due - {DueKey(s.jobs[id].spec.queue, id)})
  }

  function InStates(s: Store, ids: set<JobId>, states: set<State>): set<JobId> {
    set i | i in ids && i in s.jobs && s.jobs[i].state in states
  }

  function Missing(s: Store, ids: set<JobId>): set<JobId> {
    set i | i in ids && i !in s.jobs
  }

  function DropAmong(s: Store, aged: set<JobId>, states: set<State>): Store {
    DropSome(s, InStates(s, aged, states), Missing(s, aged))
  }

  lemma DropNone(s: Store, states: set<State>)
    ensures DropAmong(s, {}, states) == s && InStates(s, {}, states) == {}
  {
    DropNothing(s);
    assert Missing(s, {}) == {} && InStates(s, {}, states) == {};
  }

  lemma DropNothing(s: Store)
    ensures DropSome(s, {}, {}) == s
  {
    assert UuidsOf(s.jobs, {}) == {} && DueKeys(s.jobs, {}) == {};
    MinusNothing(s.jobs);
    MinusNothing(s.uuids);
    MinusNothing(s.ids);
    MinusNothing(s.running);
    MinusNothing(s.due);
  }

  lemma MinusNothing<K, V>(m: map<K, V>)
    ensures m - {} == m
  {}

  lemma DropNext(s: Store, seen: set<JobId>, id: JobId, states: set<State>)
    requires id !in seen
    ensures DropOne(DropAmong(s, seen, states), id, states) == DropAmong(s, seen + {id}, states)
  {
    var gone, orphans := InStates(s, seen, states), Missing(s, seen);
    RemoveNext(s.ids, gone + orphans, id);
    RemoveNext(s.created, gone + orphans, id);
    if id !in s.jobs {
      assert InStates(s, seen + {id}, states) == gone && Missing(s, seen + {id}) == orphans + {id};
      assert gone + (orphans + {id}) == gone + orphans + {id};
    } else if s.jobs[id].state in states {
      assert InStates(s, seen + {id}, states) == gone + {id} && Missing(s, seen + {id}) == orphans;
      assert gone + {id} + orphans == gone + orphans + {id};
      RemoveNext(s.jobs, gone, id);
      RemoveNext(s.running, gone, id);
      assert UuidsOf(s.jobs, gone + {id}) == UuidsOf(s.jobs, gone) + {s.jobs[id].spec.uuid};
      RemoveNext(s.uuids, UuidsOf(s.jobs, gone), s.jobs[id].spec.uuid);
      DueKeysNext(s.jobs, gone, id);
      RemoveNext(s.due, DueKeys(s.jobs, gone), DueKey(s.jobs[id].spec.queue, id));
    } else {
      assert InStates(s, seen + {id}, states) == gone && Missing(s, seen + {id}) == orphans;
    }
  }

  lemma AgedIsPrunable(s: Store, before: Time, states: set<State>, aged: seq<JobId>)
    requires forall i :: i in aged <==> i in s.created && s.created[i] <= before - 1
    ensures InStates(s, Elements(aged), states) == Prunable(s, before, states)
    ensures Missing(s, Elements(aged)) == Orphans(s, before)
  {}

  lemma DropCounts(s: Store, seen: set<JobId>, id: JobId, states: set<State>)
    requires id !in seen
    ensures IsIn(DropAmong(s, seen, states).jobs, id, states) == IsIn(s.jobs, id, states)
    ensures |InStates(s, seen + {id}, states)| == |InStates(s, seen, states)| +
              (if IsIn(s.jobs, id, states) then 1 else 0)
  {
    var gone := InStates(s, seen, states);
    assert InStates(s, seen + {id}, states) == if IsIn(s.jobs, id, states) then gone + {id} else gone;
  }
}
