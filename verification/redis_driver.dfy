/**
 The Lua scripts as they run: loops over ids that change the hashes and sorted sets in place. Each method is
 proved to compute the step that `JobStore` gives for it, from any store, consistent or not.
 */
module RedisDriver {
  import opened Types
  import opened RowSteps
  import opened Selection
  import opened JobStore
  import opened StoreLoops

  /** A due job as the claim script collects it. */
  datatype Candidate = Candidate(rank: Rank, job: Row)

  ghost predicate Sorted(c: seq<Candidate>) {
    forall j, k :: 0 <= j < k < |c| ==> Before(c[j].rank, c[k].rank)
  }

  ghost predicate DistinctIds(c: seq<Candidate>) {
    forall j, k :: 0 <= j < k < |c| ==> c[j].rank.id != c[k].rank.id
  }

  /** `ZRANGEBYSCORE` up to a bound; scripts do not depend on the order of the answer. */
  method RangeByScore(z: map<JobId, Time>, hi: Time) returns (r: seq<JobId>)
    ensures Distinct(r)
    ensures forall i :: i in r <==> i in z && z[i] <= hi
  {
    r := [];
    var todo := z.Keys;
    while todo != {}
      invariant todo <= z.Keys
      invariant Distinct(r)
      invariant forall i :: i in r <==> i in z && i !in todo && z[i] <= hi
      decreases todo
    {
      var i :| i in todo;
      todo := todo - {i};
      if z[i] <= hi {
        r := r + [i];
      }
    }
  }

  /** One queue's sorted set, out of the due index. */
  method DueSet(due: map<DueKey, Time>, q: string) returns (z: map<JobId, Time>)
    ensures forall i :: i in z <==> DueKey(q, i) in due
    ensures forall i :: i in z ==> z[i] == due[DueKey(q, i)]
  {
    z := map[];
    var todo := due.Keys;
    while todo != {}
      invariant todo <= due.Keys
      invariant forall i :: i in z <==> DueKey(q, i) in due && DueKey(q, i) !in todo
      invariant forall i :: i in z ==> z[i] == due[DueKey(q, i)]
      decreases todo
    {
      var k :| k in todo;
      todo := todo - {k};
      if k.queue == q {
        z := z[k.id := due[k]];
      }
    }
  }

  /** `table.sort` with the claim script's comparator. */
  method SortCandidates(c: seq<Candidate>) returns (r: seq<Candidate>)
    requires DistinctIds(c)
    ensures Sorted(r) && |r| == |c|
    ensures forall x :: x in r <==> x in c
  {
    r := [];
    for i := 0 to |c|
      invariant Sorted(r) && |r| == i
      invariant forall x :: x in r <==> x in c[..i]
    {
      var p := 0;
      while p < |r| && Before(r[p].rank, c[i].rank)
        invariant 0 <= p <= |r|
        invariant forall j :: 0 <= j < p ==> Before(r[j].rank, c[i].rank)
      {
        p := p + 1;
      }
      forall j | p <= j < |r|
        ensures Before(c[i].rank, r[j].rank)
      {
        assert r[p] in c[..i] && r[j] in c[..i];
        assert p < j ==> Before(r[p].rank, r[j].rank);
      }
      assert c[..i + 1] == c[..i] + [c[i]];
      ghost var was := r;
      r := r[..p] + [c[i]] + r[p..];
      assert was == was[..p] + was[p..];
    }
    assert c[..|c|] == c;
  }

  function IdsOf(c: seq<Candidate>): (ids: seq<JobId>)
    ensures |ids| == |c| && forall k :: 0 <= k < |c| ==> ids[k] == c[k].rank.id
  {
    seq(|c|, k requires 0 <= k < |c| => c[k].rank.id)
  }

  /** The list holds each competing job once, with its rank and its row. */
  ghost predicate Collected(c: seq<Candidate>, ranks: map<JobId, Rank>, jobs: map<JobId, Row>) {
    && DistinctIds(c)
    && (forall k :: 0 <= k < |c| ==>
          var id := c[k].rank.id; id in ranks && c[k].rank == ranks[id] && id in jobs && c[k].job == jobs[id])
    && (forall i :: i in ranks ==> exists k :: 0 <= k < |c| && c[k].rank.id == i)
  }

  lemma CollectedCount(c: seq<Candidate>, ranks: map<JobId, Rank>, jobs: map<JobId, Row>)
    requires Collected(c, ranks, jobs)
    ensures |c| == |ranks|
  {
    var ids := IdsOf(c);
    DistinctCount(ids);
    forall i | i in ranks
      ensures i in ids
    {
      var k :| 0 <= k < |c| && c[k].rank.id == i;
      assert ids[k] == i;
    }
    assert Elements(ids) == ranks.Keys;
  }

  /** Sorting keeps a collection a collection. */
  lemma SortedCollected(c: seq<Candidate>, r: seq<Candidate>, ranks: map<JobId, Rank>, jobs: map<JobId, Row>)
    requires Collected(c, ranks, jobs)
    requires Sorted(r) && forall x :: x in r <==> x in c
    ensures Collected(r, ranks, jobs)
  {
    forall k | 0 <= k < |r|
      ensures var id := r[k].rank.id; id in ranks && r[k].rank == ranks[id] && id in jobs && r[k].job == jobs[id]
    {
      assert r[k] in c;
    }
    forall i | i in ranks
      ensures exists k :: 0 <= k < |r| && r[k].rank.id == i
    {
      var k :| 0 <= k < |c| && c[k].rank.id == i;
      assert c[k] in r;
    }
  }

  lemma PastPrefix(ids: seq<JobId>, n: nat, i: JobId) returns (j: nat)
    requires n <= |ids| && i in ids && i !in ids[..n]
    ensures n <= j < |ids| && ids[j] == i
  {
    assert ids == ids[..n] + ids[n..];
    var k :| 0 <= k < |ids[n..]| && ids[n..][k] == i;
    j := n + k;
  }

  /** A prefix of the sorted candidates is what `ORDER BY ... LIMIT` would select. */
  lemma SortedPrefixIsFirst(r: seq<Candidate>, ranks: map<JobId, Rank>, jobs: map<JobId, Row>, max: nat)
    requires WellRanked(ranks) && Collected(r, ranks, jobs) && Sorted(r)
    ensures IdsOf(r)[..if max < |r| then max else |r|] == First(ranks, max)
  {
    hide Before, First;
    var n := if max < |r| then max else |r|;
    var p := IdsOf(r)[..n];
    CollectedCount(r, ranks, jobs);
    forall k, i | 0 <= k < |p| && i in ranks && i !in p
      ensures Before(ranks[p[k]], ranks[i])
    {
      PrefixComesFirst(r, ranks, jobs, n, k, i);
    }
    assert IsFirst(ranks, max, p);
    FirstIsUnique(ranks, max, p);
  }

  lemma PrefixComesFirst(r: seq<Candidate>, ranks: map<JobId, Rank>, jobs: map<JobId, Row>, n: nat, k: nat, i: JobId)
    requires Collected(r, ranks, jobs) && Sorted(r) && k < n <= |r| && i in ranks && i !in IdsOf(r)[..n]
    ensures Before(ranks[IdsOf(r)[k]], ranks[i])
  {
    hide Before;
    var k' :| 0 <= k' < |r| && r[k'].rank.id == i;
    assert IdsOf(r)[k'] == i;
    var j := PastPrefix(IdsOf(r), n, i);
    assert Before(r[k].rank, r[j].rank);
  }

  /** The candidates among `ids`, in the order they are met. */
  function Gather(s: Store, z: map<JobId, Time>, ids: seq<JobId>): seq<Candidate>
    requires forall i :: i in ids ==> i in z
  {
    if ids == [] then []
    else
      var id := Last(ids);
      Gather(s, z, Front(ids)) +
      if id in s.jobs && Ready(s.jobs[id]) then [CandidateOf(s, z, id)] else []
  }

  lemma GatherNone(s: Store, z: map<JobId, Time>, ids: seq<JobId>)
    ensures Gather(s, z, ids[..0]) == []
  {}

  lemma GatherNext(s: Store, z: map<JobId, Time>, ids: seq<JobId>, i: nat)
    requires i < |ids| && forall j :: j in ids ==> j in z
    ensures Gather(s, z, ids[..i + 1]) ==
            Gather(s, z, ids[..i]) +
            if ids[i] in s.jobs && Ready(s.jobs[ids[i]]) then [CandidateOf(s, z, ids[i])] else []
  {
    assert Front(ids[..i + 1]) == ids[..i];
  }

  lemma UnreadyIsDropped(s: Store, q: string, now: Time, z: map<JobId, Time>, ids: seq<JobId>)
    requires forall i :: i in z <==> DueKey(q, i) in s.due
    requires forall i :: i in z ==> z[i] == s.due[DueKey(q, i)]
    requires forall i :: i in ids <==> i in z && z[i] <= now
    ensures Unready(s, Elements(ids)) == Dropped(s, q, now)
  {
    forall i
      ensures i in Unready(s, Elements(ids)) <==> i in Dropped(s, q, now)
    {
      if i in Unready(s, Elements(ids)) {
        assert DueKey(q, i) in s.due;
      }
    }
  }

  /** What the script makes of a ready job. */
  function CandidateOf(s: Store, z: map<JobId, Time>, id: JobId): Candidate
    requires id in s.jobs && id in z
  {
    Candidate(Rank(s.jobs[id].spec.priority, z[id], id), s.jobs[id])
  }

  lemma {:induction false} GatherSound(s: Store, z: map<JobId, Time>, ids: seq<JobId>, k: nat)
    requires (forall i :: i in ids ==> i in z) && k < |Gather(s, z, ids)|
    ensures var c := Gather(s, z, ids)[k]; var id := c.rank.id;
            id in ids && id in s.jobs && Ready(s.jobs[id]) && c == CandidateOf(s, z, id)
  {
    hide Ready;
    if ids != [] && k < |Gather(s, z, Front(ids))| {
      GatherSound(s, z, Front(ids), k);
    }
  }

  lemma {:induction false} GatherDistinct(s: Store, z: map<JobId, Time>, ids: seq<JobId>)
    requires (forall i :: i in ids ==> i in z) && Distinct(ids)
    ensures DistinctIds(Gather(s, z, ids))
  {
    hide Ready;
    if ids != [] {
      GatherDistinct(s, z, Front(ids));
      var c := Gather(s, z, Front(ids));
      forall k | 0 <= k < |c|
        ensures c[k].rank.id != Last(ids)
      {
        GatherSound(s, z, Front(ids), k);
      }
    }
  }

  lemma {:induction false} GatherComplete(s: Store, z: map<JobId, Time>, ids: seq<JobId>, i: JobId) returns (k: nat)
    requires (forall i :: i in ids ==> i in z) && i in ids && i in s.jobs && Ready(s.jobs[i])
    ensures k < |Gather(s, z, ids)| && Gather(s, z, ids)[k].rank.id == i
  {
    hide Ready;
    assert ids == Front(ids) + [Last(ids)];
    if i == Last(ids) {
      k := |Gather(s, z, Front(ids))|;
    } else {
      k := GatherComplete(s, z, Front(ids), i);
    }
  }

  lemma GatherCollects(s: Store, q: string, now: Time, z: map<JobId, Time>, ids: seq<JobId>)
    requires forall i :: i in z <==> DueKey(q, i) in s.due
    requires forall i :: i in z ==> z[i] == s.due[DueKey(q, i)]
    requires forall i :: i in ids <==> i in z && z[i] <= now
    requires Distinct(ids)
    ensures Collected(Gather(s, z, ids), Candidates(s, q, now), s.jobs)
  {
    hide Gather, Ready;
    GatherDistinct(s, z, ids);
    var c, ranks := Gather(s, z, ids), Candidates(s, q, now);
    forall k | 0 <= k < |c|
      ensures var id := c[k].rank.id; id in ranks && c[k].rank == ranks[id] && id in s.jobs && c[k].job == s.jobs[id]
    {
      GatherSound(s, z, ids, k);
    }
    forall i | i in ranks
      ensures exists k :: 0 <= k < |c| && c[k].rank.id == i
    {
      var k := GatherComplete(s, z, ids, i);
    }
  }

  lemma SortedPicks(s: Store, q: string, max: int, now: Time, c: seq<Candidate>, r: seq<Candidate>)
    requires max > 0 && Collected(c, Candidates(s, q, now), s.jobs)
    requires Sorted(r) && |r| == |c| && forall x :: x in r <==> x in c
    ensures IdsOf(r)[..if max < |r| then max else |r|] == Picked(s, q, max, now)
    ensures forall k :: 0 <= k < |r| ==> r[k].rank.id in s.jobs && r[k].job == s.jobs[r[k].rank.id]
  {
    SortedCollected(c, r, Candidates(s, q, now), s.jobs);
    SortedPrefixIsFirst(r, Candidates(s, q, now), s.jobs, max);
  }

  lemma StartedRows(s: Store, q: string, node: string, max: int, now: Time, r: seq<Candidate>, n: nat, result: seq<Row>)
    requires n <= |r| && IdsOf(r)[..n] == Picked(s, q, max, now)
    requires forall k :: 0 <= k < |r| ==> r[k].rank.id in s.jobs && r[k].job == s.jobs[r[k].rank.id]
    requires |result| == n && forall k :: 0 <= k < n ==> result[k] == ClaimRow(r[k].job, node, now)
    ensures Claimed(result) == Answer(s, Claim(q, node, max, now))
  {
    assert result == ClaimedRows(s, q, node, max, now);
  }

  class RedisStore {
    var nextId: nat
    var uuids: map<string, JobId>
    var jobs: map<JobId, Row>
    var ids: map<JobId, int>
    var created: map<JobId, Time>
    var running: map<JobId, Time>
    var due: map<DueKey, Time>

    ghost function Contents(): Store
      reads this
    {
      Store(nextId, uuids, jobs, ids, created, running, due)
    }

    constructor ()
      ensures Contents() == EMPTY
    {
      nextId := 0;
      uuids, jobs, ids, created, running, due := map[], map[], map[], map[], map[], map[];
    }

    /** Body of the enqueue script's second loop. */
    method InsertNext(row: Row) returns (id: JobId)
      modifies this
      ensures Contents() == Insert(old(Contents()), row)
      ensures nextId == id == old(nextId) + 1
    {
      nextId := nextId + 1;
      id := nextId;
      uuids := uuids[row.spec.uuid := id];
      jobs := jobs[id := row.(id := id)];
      ids := ids[id := id];
      created := created[id := row.spec.createdAt];
      if row.state.Claimable() {
        due := due[DueKey(row.spec.queue, id) := row.scheduledAt];
      }
    }

    method EnqueueScript(rows: seq<Row>) returns (reply: Reply)
      modifies this
      ensures Contents() == EnqueueStore(old(Contents()), rows)
      ensures reply == Answer(old(Contents()), Enqueue(rows))
    {
      hide Insert;
      ghost var s := Contents();
      var seen: set<string> := {};
      for i := 0 to |rows|
        invariant Contents() == s
        invariant seen == set j | 0 <= j < i :: rows[j].spec.uuid
        invariant forall k :: 0 <= k < i ==> !ClashAt(s, rows, k)
      {
        if rows[i].spec.uuid == "" || rows[i].spec.uuid in seen || rows[i].spec.uuid in uuids {
          assert ClashAt(s, rows, i);
          return Refused(DuplicateUuid);
        }
        seen := seen + {rows[i].spec.uuid};
      }
      var result: seq<JobId> := [];
      for i := 0 to |rows|
        invariant Contents() == InsertAll(s, rows[..i])
        invariant nextId == s.nextId + i
        invariant result == FreshIds(s, i)
      {
        assert Front(rows[..i + 1]) == rows[..i];
        var id := InsertNext(rows[i]);
        result := result + [id];
      }
      assert rows[..|rows|] == rows;
      reply := Inserted(result);
    }

    /** Body of the first loop: a ready job, or a due entry to forget. */
    method Inspect(id: JobId, q: string, score: Time) returns (found: seq<Candidate>)
      modifies this`due
      ensures var ready := id in jobs && Ready(jobs[id]);
              && found == (if ready then [Candidate(Rank(jobs[id].spec.priority, score, id), jobs[id])] else [])
              && due == (if ready then old(due) else old(due) - {DueKey(q, id)})
    {
      found := [];
      if id in jobs {
        var job := jobs[id];
        if job.state.Claimable() && job.attempt < job.spec.maxAttempts {
          found := [Candidate(Rank(job.spec.priority, score, id), job)];
        } else {
          due := due - {DueKey(q, id)};
        }
      } else {
        due := due - {DueKey(q, id)};
      }
    }

    /** First loop of the claim script: gather the ready jobs, forget the due entries that are not. */
    method CollectDue(q: string, now: Time) returns (c: seq<Candidate>)
      modifies this
      ensures Collected(c, Candidates(old(Contents()), q, now), old(jobs))
      ensures Contents() == Forget(old(Contents()), q, Dropped(old(Contents()), q, now))
    {
      hide Unready, QueueKeys, Elements, Candidates, Dropped, Ready, Gather, Forget;
      ghost var s := Contents();
      var z := DueSet(due, q);
      var ids := RangeByScore(z, now);
      c := [];
      ForgetNone(s, q);
      ElementsNone(ids);
      GatherNone(s, z, ids);
      for i := 0 to |ids|
        invariant Contents() == Forget(s, q, Unready(s, Elements(ids[..i])))
        invariant c == Gather(s, z, ids[..i])
      {
        ElementsStep(ids, i);
        ForgetNext(s, q, Elements(ids[..i]), ids[i]);
        GatherNext(s, z, ids, i);
        var found := Inspect(ids[i], q, z[ids[i]]);
        c := c + found;
      }
      assert ids[..|ids|] == ids;
      UnreadyIsDropped(s, q, now, z, ids);
      GatherCollects(s, q, now, z, ids);
    }

    method Start(item: Candidate, q: string, node: string, now: Time) returns (job: Row)
      modifies this
      ensures job == ClaimRow(item.job, node, now)
      ensures Contents() == old(Contents()).(
        jobs := old(jobs)[item.rank.id := job],
        running := old(running)[item.rank.id := now],
        due := old(due) - {DueKey(q, item.rank.id)})
    {
      job := ClaimRow(item.job, node, now);
      jobs := jobs[item.rank.id := job];
      due := due - {DueKey(q, item.rank.id)};
      running := running[item.rank.id := now];
    }

    /** Last loop of the claim script: start the first `n` candidates. */
    method StartFirst(r: seq<Candidate>, n: nat, q: string, node: string, now: Time) returns (result: seq<Row>)
      requires n <= |r| && forall k :: 0 <= k < n ==> r[k].rank.id in jobs && r[k].job == jobs[r[k].rank.id]
      modifies this
      ensures Contents() == ClaimSome(old(Contents()), q, Elements(IdsOf(r)[..n]), node, now)
      ensures |result| == n && forall k :: 0 <= k < n ==> result[k] == ClaimRow(r[k].job, node, now)
    {
      hide ClaimSome, ClaimRow, Elements, QueueKeys;
      ghost var t := Contents();
      ghost var ids := IdsOf(r);
      result := [];
      ClaimNone(t, q, node, now);
      ElementsNone(ids);
      for i := 0 to n
        invariant Contents() == ClaimSome(t, q, Elements(ids[..i]), node, now)
        invariant |result| == i && forall k :: 0 <= k < i ==> result[k] == ClaimRow(r[k].job, node, now)
      {
        ElementsStep(ids, i);
        ClaimNext(t, q, Elements(ids[..i]), ids[i], node, now);
        var job := Start(r[i], q, node, now);
        result := result + [job];
      }
    }

    /** The claim script: collect, sort, and start the first `max` candidates. */
    method ClaimScript(q: string, node: string, max: int, now: Time) returns (reply: Reply)
      modifies this
      ensures Contents() == ClaimStore(old(Contents()), q, node, max, now)
      ensures reply == Answer(old(Contents()), Claim(q, node, max, now))
    {
      ghost var s := Contents();
      if max <= 0 { return Claimed([]); }
      var candidates := CollectDue(q, now);
      var r := SortCandidates(candidates);
      SortedPicks(s, q, max, now, candidates, r);
      var n := if max < |r| then max else |r|;
      var result := StartFirst(r, n, q, node, now);
      ClaimAssembles(s, q, node, max, now);
      StartedRows(s, q, node, max, now, r, n, result);
      reply := Claimed(result);
    }

    method CompleteScript(id: JobId, output: string, now: Time) returns (reply: Reply)
      modifies this
      ensures Contents() == CompleteStore(old(Contents()), id, output, now)
      ensures reply == Answer(old(Contents()), Complete(id, output, now))
    {
      if id !in jobs { return Refused(NotFound); }
      if !jobs[id].state.Running? { return Refused(NotFound); }
      jobs := jobs[id := CompleteRow(jobs[id], output, now)];
      running := running - {id};
      reply := Done;
    }

    method FailScript(id: JobId, message: string, now: Time) returns (reply: Reply)
      modifies this
      ensures Contents() == FailStore(old(Contents()), id, message, now)
      ensures reply == Answer(old(Contents()), Fail(id, message, now))
    {
      if id !in jobs { return Refused(NotFound); }
      if !jobs[id].state.Running? && !jobs[id].state.Retryable? { return Refused(NotFound); }
      jobs := jobs[id := FailRow(jobs[id], message, now)];
      running := running - {id};
      due := due - {DueKey(jobs[id].spec.queue, id)};
      reply := Done;
    }

    method ScheduleRetryScript(id: JobId, message: string, at: Time, now: Time) returns (reply: Reply)
      modifies this
      ensures Contents() == ScheduleRetryStore(old(Contents()), id, message, at, now)
      ensures reply == Answer(old(Contents()), ScheduleRetry(id, message, at, now))
    {
      if id !in jobs { return Refused(NotFound); }
      if !jobs[id].state.Running? { return Refused(NotFound); }
      jobs := jobs[id := ScheduleRetryRow(jobs[id], message, at, now)];
      running := running - {id};
      due := due[DueKey(jobs[id].spec.queue, id) := at];
      reply := Done;
    }

    /** The rows named by `ids`, or the objection to the first one that is missing or not allowed. */
    method Validate(ids: seq<JobId>, allowed: Row -> bool)
      returns (objection: Option<Refusal>, items: seq<(JobId, Row)>)
      ensures objection == Screen(jobs, ids, allowed)
      ensures objection.None? ==> |items| == |ids|
      ensures objection.None? ==>
                forall k :: 0 <= k < |ids| ==>
                    ids[k] in jobs && items[k] == (ids[k], jobs[ids[k]]) && allowed(jobs[ids[k]])
    {
      items := [];
      for i := 0 to |ids|
        invariant |items| == i
        invariant forall k :: 0 <= k < i ==>
                    ids[k] in jobs && items[k] == (ids[k], jobs[ids[k]]) && allowed(jobs[ids[k]])
      {
        if ids[i] !in jobs {
          ScreenStops(jobs, ids, allowed, i);
          return Some(NotFound), items;
        }
        if !allowed(jobs[ids[i]]) {
          ScreenStops(jobs, ids, allowed, i);
          return Some(InvalidTransition), items;
        }
        items := items + [(ids[i], jobs[ids[i]])];
      }
      objection := None;
      ScreenPasses(jobs, ids, allowed);
    }

    /** Body of the retry script's second loop. */
    method RetryItem(id: JobId, job: Row, now: Time)
      modifies this
      ensures Contents() == old(Contents()).(
        jobs := old(jobs)[id := RetryRow(job, now)],
        due := old(due)[DueKey(job.spec.queue, id) := now],
        running := old(running) - {id})
    {
      jobs := jobs[id := RetryRow(job, now)];
      due := due[DueKey(job.spec.queue, id) := now];
      running := running - {id};
    }

    method RetryScript(ids: seq<JobId>, now: Time) returns (reply: Reply)
      modifies this
      ensures Contents() == RetryStore(old(Contents()), ids, now)
      ensures reply == Answer(old(Contents()), RetryBatch(ids, now))
    {
      hide RetrySome, RetryRow, CanRetry, Elements;
      ghost var s := Contents();
      var objection, items := Validate(ids, CanRetry);
      if objection.Some? { return Refused(objection.value); }
      RetryNone(s, now);
      ElementsNone(ids);
      for i := 0 to |items|
        invariant Contents() == RetrySome(s, Elements(ids[..i]), now)
      {
        var (id, job) := items[i];
        RetryNext(s, Elements(ids[..i]), id, now);
        ElementsStep(ids, i);
        RetryItem(id, job, now);
      }
      assert ids[..|ids|] == ids;
      reply := Done;
    }

    /** Body of the cancel script's second loop. */
    method CancelItem(id: JobId, job: Row, now: Time)
      modifies this
      ensures Contents() == old(Contents()).(
        jobs := old(jobs)[id := CancelRow(job, now)], due := old(due) - {DueKey(job.spec.queue, id)})
    {
      jobs := jobs[id := CancelRow(job, now)];
      due := due - {DueKey(job.spec.queue, id)};
    }

    method CancelScript(ids: seq<JobId>, now: Time) returns (reply: Reply)
      modifies this
      ensures Contents() == CancelStore(old(Contents()), ids, now)
      ensures reply == Answer(old(Contents()), CancelBatch(ids, now))
    {
      hide CancelSome, CancelRow, CanCancel, Elements;
      ghost var s := Contents();
      var objection, items := Validate(ids, CanCancel);
      if objection.Some? { return Refused(objection.value); }
      CancelNone(s, now);
      ElementsNone(ids);
      for i := 0 to |items|
        invariant Contents() == CancelSome(s, Elements(ids[..i]), now)
      {
        var (id, job) := items[i];
        CancelNext(s, Elements(ids[..i]), id, now);
        ElementsStep(ids, i);
        CancelItem(id, job, now);
      }
      assert ids[..|ids|] == ids;
      reply := Done;
    }

    /** The loop body of the stale script. */
    method RequeueExpired(id: JobId, now: Time) returns (hit: bool)
      modifies this
      ensures Contents() == RequeueOne(old(Contents()), id, now)
      ensures hit == IsRunning(old(jobs), id)
    {
      hit := false;
      if id in jobs {
        var job := jobs[id];
        if job.state.Running? {
          jobs := jobs[id := RequeueRow(job, now)];
          due := due[DueKey(job.spec.queue, id) := now];
          hit := true;
        }
      }
      running := running - {id};
    }

    method RequeueEach(expired: seq<JobId>, now: Time) returns (count: nat)
      requires Distinct(expired)
      modifies this
      ensures Contents() == RequeueAmong(old(Contents()), Elements(expired), now)
      ensures count == |RunningAmong(old(Contents()), Elements(expired))|
    {
      hide RequeueAmong, RunningAmong, RequeueOne, IsRunning, Elements;
      ghost var s := Contents();
      count := 0;
      RequeueNone(s, now);
      ElementsNone(expired);
      for i := 0 to |expired|
        invariant count == |RunningAmong(s, Elements(expired[..i]))|
        invariant Contents() == RequeueAmong(s, Elements(expired[..i]), now)
      {
        ElementsStep(expired, i);
        DistinctStep(expired, i);
        RequeueNext(s, Elements(expired[..i]), expired[i], now);
        var hit := RequeueExpired(expired[i], now);
        if hit { count := count + 1; }
      }
      assert expired[..|expired|] == expired;
    }

    method StaleScript(timeout: int, now: Time) returns (reply: Reply)
      modifies this
      ensures Contents() == RequeueStaleStore(old(Contents()), timeout, now)
      ensures reply == Answer(old(Contents()), RequeueStale(timeout, now))
    {
      hide RequeueSome, RunningAmong, Stale, Expired, Elements;
      var expired := RangeByScore(running, now - timeout);
      ExpiredIsStale(Contents(), now - timeout, expired);
      var count := RequeueEach(expired, now);
      reply := Counted(count);
    }

    /** The loop body of the prune script. */
    method DropAged(id: JobId, states: set<State>) returns (hit: bool)
      modifies this
      ensures Contents() == DropOne(old(Contents()), id, states)
      ensures hit == IsIn(old(jobs), id, states)
    {
      hit := false;
      if id in jobs {
        var job := jobs[id];
        if job.state in states {
          jobs := jobs - {id};
          uuids := uuids - {job.spec.uuid};
          ids := ids - {id};
          created := created - {id};
          running := running - {id};
          due := due - {DueKey(job.spec.queue, id)};
          hit := true;
        }
      } else {
        ids := ids - {id};
        created := created - {id};
      }
    }

    method DropEach(aged: seq<JobId>, states: set<State>) returns (count: nat)
      requires Distinct(aged)
      modifies this
      ensures Contents() == DropAmong(old(Contents()), Elements(aged), states)
      ensures count == |InStates(old(Contents()), Elements(aged), states)|
    {
      hide DropAmong, InStates, DropOne, IsIn, Elements;
      ghost var s := Contents();
      count := 0;
      DropNone(s, states);
      ElementsNone(aged);
      for i := 0 to |aged|
        invariant count == |InStates(s, Elements(aged[..i]), states)|
        invariant Contents() == DropAmong(s, Elements(aged[..i]), states)
      {
        ElementsStep(aged, i);
        DistinctStep(aged, i);
        DropNext(s, Elements(aged[..i]), aged[i], states);
        DropCounts(s, Elements(aged[..i]), aged[i], states);
        var hit := DropAged(aged[i], states);
        if hit { count := count + 1; }
      }
      assert aged[..|aged|] == aged;
    }

    method PruneScript(before: Time, states: set<State>) returns (reply: Reply)
      modifies this
      ensures Contents() == PruneStore(old(Contents()), before, states)
      ensures reply == Answer(old(Contents()), Prune(before, states))
    {
      hide DropSome, InStates, Missing, Prunable, Orphans, Elements;
      if states == {} { return Counted(0); }
      var aged := RangeByScore(created, before - 1);
      AgedIsPrunable(Contents(), before, states, aged);
      var count := DropEach(aged, states);
      reply := Counted(count);
    }
  }
}
