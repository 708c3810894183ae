/**
 The order in which jobs are claimed: priority descending, then due time ascending, then id ascending,
 cut to the first `max`. A set of competing jobs is a map from id to rank.
 */
module Selection {
  import opened Types

  datatype Rank = Rank(priority: int, score: Time, id: JobId)

  predicate Before(a: Rank, b: Rank) {
    || a.priority > b.priority
    || (a.priority == b.priority && a.score < b.score)
    || (a.priority == b.priority && a.score == b.score && a.id < b.id)
  }

  ghost predicate WellRanked(ranks: map<JobId, Rank>) {
    forall i :: i in ranks ==> ranks[i].id == i
  }

  ghost predicate IsLeast(ranks: map<JobId, Rank>, m: JobId) {
    m in ranks && forall i :: i in ranks && i != m ==> Before(ranks[m], ranks[i])
  }

  lemma {:induction false} LeastExists(ranks: map<JobId, Rank>)
    requires WellRanked(ranks) && ranks != map[]
    ensures exists m :: IsLeast(ranks, m)
    decreases |ranks|
  {
    var i :| i in ranks;
    var rest := ranks - {i};
    assert ranks.Keys == rest.Keys + {i};
    if rest == map[] {
      assert IsLeast(ranks, i);
    } else {
      LeastExists(rest);
      var m :| IsLeast(rest, m);
      assert IsLeast(ranks, if Before(ranks[i], ranks[m]) then i else m);
    }
  }

  ghost function Least(ranks: map<JobId, Rank>): (m: JobId)
    requires WellRanked(ranks) && ranks != map[]
    ensures IsLeast(ranks, m)
  {
    LeastExists(ranks);
    var m :| IsLeast(ranks, m);
    m
  }

  /** The ids of the first `max` jobs, in claiming order. */
  ghost function First(ranks: map<JobId, Rank>, max: nat): seq<JobId>
    requires WellRanked(ranks)
    decreases max
  {
    if max == 0 || ranks == map[] then []
    else
      var m := Least(ranks);
      [m] + First(ranks - {m}, max - 1)
  }

  /** `ORDER BY priority DESC, scheduled_at ASC, id ASC LIMIT max`, said without computing it. */
  ghost predicate IsFirst(ranks: map<JobId, Rank>, max: nat, p: seq<JobId>) {
    && |p| == (if max < |ranks| then max else |ranks|)
    && (forall k :: 0 <= k < |p| ==> p[k] in ranks)
    && (forall j, k :: 0 <= j < k < |p| ==> Before(ranks[p[j]], ranks[p[k]]))
    && (forall k, i :: 0 <= k < |p| && i in ranks && i !in p ==> Before(ranks[p[k]], ranks[i]))
  }

  lemma RemoveOne(ranks: map<JobId, Rank>, m: JobId)
    requires m in ranks
    ensures |ranks - {m}| == |ranks| - 1
  {
    assert (ranks - {m}).Keys == ranks.Keys - {m};
    assert |ranks.Keys - {m}| == |ranks.Keys| - 1;
    assert |ranks| == |ranks.Keys| && |ranks - {m}| == |(ranks - {m}).Keys|;
  }

  lemma FirstNone(ranks: map<JobId, Rank>, max: nat)
    requires max == 0 || ranks == map[]
    ensures IsFirst(ranks, max, [])
  {
    assert |ranks| == 0 || max == 0;
  }

  /** The least job in front of the first of the others. */
  lemma FirstStep(ranks: map<JobId, Rank>, max: nat, m: JobId, tail: seq<JobId>)
    requires max > 0 && IsLeast(ranks, m) && IsFirst(ranks - {m}, max - 1, tail)
    ensures IsFirst(ranks, max, [m] + tail)
  {
    hide Before;
    var p, rest := [m] + tail, ranks - {m};
    RemoveOne(ranks, m);
    forall k, i | 0 <= k < |p| && i in ranks && i !in p
      ensures Before(ranks[p[k]], ranks[i])
    {
      assert i != m && i in rest && i !in tail;
      if k > 0 {
        assert p[k] == tail[k - 1];
      }
    }
  }

  lemma {:induction false} FirstIsFirst(ranks: map<JobId, Rank>, max: nat)
    requires WellRanked(ranks)
    ensures IsFirst(ranks, max, First(ranks, max))
    decreases max
  {
    hide Before, IsFirst;
    if max > 0 && ranks != map[] {
      var m := Least(ranks);
      var rest := ranks - {m};
      FirstIsFirst(rest, max - 1);
      FirstStep(ranks, max, m, First(rest, max - 1));
    } else {
      FirstNone(ranks, max);
    }
  }

  /** The claiming order admits one answer only. */
  lemma {:induction false} FirstIsUnique(ranks: map<JobId, Rank>, max: nat, p: seq<JobId>)
    requires WellRanked(ranks) && IsFirst(ranks, max, p)
    ensures p == First(ranks, max)
    decreases max
  {
    hide Before, IsFirst, IsLeast;
    if max > 0 && ranks != map[] {
      var m := Least(ranks);
      FirstTail(ranks, max, p);
      LeastIsUnique(ranks, m, p[0]);
      FirstIsUnique(ranks - {m}, max - 1, p[1..]);
      assert p == [p[0]] + p[1..];
    } else {
      FirstOfNone(ranks, max, p);
    }
  }

  lemma FirstOfNone(ranks: map<JobId, Rank>, max: nat, p: seq<JobId>)
    requires (max == 0 || ranks == map[]) && IsFirst(ranks, max, p)
    ensures p == []
  {}

  lemma LeastIsUnique(ranks: map<JobId, Rank>, a: JobId, b: JobId)
    requires IsLeast(ranks, a) && IsLeast(ranks, b)
    ensures a == b
  {}

  /** What a selection begins with is least, and the rest of it is the selection from the others. */
  lemma FirstTail(ranks: map<JobId, Rank>, max: nat, p: seq<JobId>)
    requires max > 0 && ranks != map[] && IsFirst(ranks, max, p)
    ensures p != [] && IsLeast(ranks, p[0]) && IsFirst(ranks - {p[0]}, max - 1, p[1..])
  {
    hide Before;
    assert |ranks| > 0;
    assert p == [p[0]] + p[1..];
    forall i | i in ranks && i != p[0]
      ensures Before(ranks[p[0]], ranks[i])
    {
      if i in p {
        var k :| 0 <= k < |p| && p[k] == i;
      }
    }
    RemoveOne(ranks, p[0]);
    IrreflexiveTail(ranks, p);
  }

  lemma IrreflexiveTail(ranks: map<JobId, Rank>, p: seq<JobId>)
    requires p != [] && (forall k :: 0 <= k < |p| ==> p[k] in ranks)
    requires forall j, k :: 0 <= j < k < |p| ==> Before(ranks[p[j]], ranks[p[k]])
    ensures forall k :: 0 <= k < |p[1..]| ==> p[1..][k] in ranks - {p[0]}
  {
    forall k | 0 <= k < |p[1..]|
      ensures p[1..][k] in ranks - {p[0]}
    {
      assert Before(ranks[p[0]], ranks[p[k + 1]]);
    }
  }

  lemma FirstIsDistinct(ranks: map<JobId, Rank>, max: nat)
    requires WellRanked(ranks)
    ensures Distinct(First(ranks, max))
    ensures forall i :: i in First(ranks, max) ==> i in ranks
  {
    FirstIsFirst(ranks, max);
  }
}
