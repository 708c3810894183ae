/** The declared transition table, and how the driver steps relate to it. */
module StateMachine {
  import opened Types
  import opened RowInvariant
  import opened JobStore
  import opened StoreInvariant
  import opened Runs

  /** The transition table. */
  predicate ValidTransition(from: State, to: State) {
    match from
    case Pending => to.Available? || to.Cancelled?
    case Scheduled => to.Available? || to.Cancelled?
    case Available => to.Running? || to.Cancelled?
    case Running => to.Completed? || to.Retryable? || to.Failed?
    case Retryable => to.Available? || to.Cancelled?
    case Completed => to.Available?
    case Failed => to.Available?
    case Cancelled => false
  }

  /** A path through the table with at least one transition. */
  ghost predicate IsPath(p: seq<State>, from: State, to: State) {
    && |p| >= 2 && p[0] == from && p[|p| - 1] == to
    && forall k :: 0 <= k < |p| - 1 ==> ValidTransition(p[k], p[k + 1])
  }

  /** The transitive closure of the table. */
  ghost predicate Reaches(from: State, to: State) {
    exists p :: IsPath(p, from, to)
  }

  /** Work begins and ends only as running; only waiting jobs are cancelled; ended or waiting jobs become available. */
  lemma NoShortcuts(from: State, to: State)
    requires ValidTransition(from, to)
    ensures to != Pending && to != Scheduled
    ensures to == Running ==> from == Available
    ensures to == Completed || to == Retryable || to == Failed ==> from == Running
    ensures to == Cancelled ==> from == Pending || from == Scheduled || from == Available || from == Retryable
    ensures to == Available ==> from != Available && from != Running && from != Cancelled
  {}

  /** What the table allows in several steps: from anything but cancelled to anything but pending and scheduled. */
  lemma ReachesIff(from: State, to: State)
    ensures Reaches(from, to) <==> from != Cancelled && to != Pending && to != Scheduled
  {
    hide ValidTransition;
    if Reaches(from, to) {
      CancelledIsFinal(to);
      var p :| IsPath(p, from, to);
      LastTransition(p, from, to);
    }
    if from != Cancelled && to != Pending && to != Scheduled {
      ToAvailable(from);
      var p :| IsPath(p, from, Available);
      if to != Available {
        FromAvailable(to);
        var q :| IsPath(q, Available, to);
        JoinPaths(p, q, from, to);
      }
    }
  }

  lemma LastTransition(p: seq<State>, from: State, to: State)
    requires IsPath(p, from, to)
    ensures to != Pending && to != Scheduled
  {
    var k := |p| - 2;
    assert ValidTransition(p[k], p[k + 1]);
  }

  lemma ToAvailable(from: State)
    requires from != Cancelled
    ensures Reaches(from, Available)
  {
    if from == Available {
      assert IsPath([Available, Running, Completed, Available], from, Available);
    } else if from == Running {
      assert IsPath([Running, Completed, Available], from, Available);
    } else {
      assert IsPath([from, Available], from, Available);
    }
  }

  lemma FromAvailable(to: State)
    requires to != Pending && to != Scheduled && to != Available
    ensures Reaches(Available, to)
  {
    if to == Running || to == Cancelled {
      assert IsPath([Available, to], Available, to);
    } else {
      assert IsPath([Available, Running, to], Available, to);
    }
  }

  lemma JoinPaths(p: seq<State>, q: seq<State>, from: State, to: State)
    requires IsPath(p, from, Available) && IsPath(q, Available, to)
    ensures Reaches(from, to)
  {
    hide ValidTransition;
    var all := p + q[1..];
    forall k | 0 <= k < |all| - 1
      ensures ValidTransition(all[k], all[k + 1])
    {
      if k < |p| - 1 {
        assert ValidTransition(p[k], p[k + 1]);
      } else {
        var m := k - |p| + 1;
        assert ValidTransition(q[m], q[m + 1]);
      }
    }
    assert IsPath(all, from, to);
  }

  lemma CancelledIsFinal(to: State)
    ensures !Reaches(Cancelled, to)
  {
    forall p: seq<State>
      ensures !IsPath(p, Cancelled, to)
    {
      assert |p| >= 2 && p[0].Cancelled? ==> !ValidTransition(p[0], p[0 + 1]);
    }
  }

  lemma StartReached(from: State)
    requires from.Claimable()
    ensures Reaches(from, Running)
  {
    if from.Available? {
      assert IsPath([Available, Running], from, Running);
    } else {
      assert IsPath([from, Available, Running], from, Running);
    }
  }

  lemma FailReached(from: State)
    requires from.Running? || from.Retryable?
    ensures Reaches(from, Failed)
  {
    if from.Running? {
      assert IsPath([Running, Failed], from, Failed);
    } else {
      assert IsPath([Retryable, Available, Running, Failed], from, Failed);
    }
  }

  lemma DirectReached(from: State, to: State)
    requires ValidTransition(from, to)
    ensures Reaches(from, to)
  {
    assert IsPath([from, to], from, to);
  }

  lemma RequeueReached()
    ensures Reaches(Running, Available)
  {
    assert IsPath([Running, Retryable, Available], Running, Available);
  }

  /** What a step may do to the state of a row that exists before and after it. */
  ghost predicate Disciplined(r: Row, r': Row) {
    && (Reaches(r.state, r'.state) || (r.state.Cancelled? && r'.state.Available?))
    && !r'.state.Pending? && !r'.state.Scheduled?
    && (r.state.Pending? ==> r'.state.Cancelled?)
  }

  lemma ChangeIsDisciplined(ev: Event, op: Op, r: Row, r': Row)
    requires Change(ev, op, Some(r), Some(r')) && ev != Idle
    ensures Disciplined(r, r')
    ensures r.state.Cancelled? ==> ev == Reset
  {
    hide IsPath, Reaches;
    match ev
    case Started => StartReached(r.state);
    case Finished => DirectReached(Running, Completed);
    case FailedRunning => FailReached(r.state);
    case FailedWaiting => FailReached(r.state);
    case Deferred => DirectReached(Running, Retryable);
    case Requeued => RequeueReached();
    case Reset =>
      if !r.state.Cancelled? { DirectReached(r.state, Available); }
    case Withdrawn => DirectReached(r.state, Cancelled);
  }

  /**
   Over every run, a row changes state only along the closure of the table, except that a manual Retry revives a
   cancelled row; nothing moves a row into pending or scheduled, and a pending row can only be cancelled.
   A row carries a final time exactly when its state is terminal.
   */
  lemma RunsAreDisciplined(ops: seq<Op>, id: JobId)
    requires WellFormedRun(ops) && ops != [] && Now(Front(ops), id).Some? && Now(ops, id).Some?
    ensures var r, r' := Now(Front(ops), id).value, Now(ops, id).value; r == r' || Disciplined(r, r')
    ensures var r' := Now(ops, id).value; r'.finalizedAt.Some? <==> r'.state.Terminal()
    ensures
      var r, r' := Now(Front(ops), id).value, Now(ops, id).value;
      r != r' && r.state.Cancelled? ==> (Last(ops).Retry? || Last(ops).RetryBatch?) && !Reaches(r.state, r'.state)
  {
    hide Exec, EventOf, WellFormed, HistoryOk, Disciplined, IsPath, Reaches;
    LastChange(ops, id);
    if LastEvent(ops, id) != Idle {
      ChangeIsDisciplined(LastEvent(ops, id), Last(ops), Now(Front(ops), id).value, Now(ops, id).value);
      CancelledIsFinal(Now(ops, id).value.state);
    }
  }

  /** The error history every reachable row carries. */
  lemma ErrorHistory(ops: seq<Op>, id: JobId)
    requires WellFormedRun(ops) && Now(ops, id).Some?
    ensures
      var r := Now(ops, id).value;
      var e := r.errors;
      && (forall k :: 0 <= k < |e| ==> 1 <= e[k].attempt <= r.attempt)
      && (forall j, k :: 0 <= j < k < |e| ==> e[j].attempt <= e[k].attempt)
      && (!r.state.Failed? ==> forall j, k :: 0 <= j < k < |e| ==> e[j].attempt < e[k].attempt)
      && (r.state.Running? ==> forall k :: 0 <= k < |e| ==> e[k].attempt < r.attempt)
      && (r.state.Retryable? || r.state.Failed? ==> e != [] && Last(e).attempt == r.attempt)
      && |e| <= r.attempt + (if r.state.Failed? then 1 else 0)
  {
    hide Exec, WellFormed, KeysOk, UuidsOk, DueOk, RunningOk;
    ReachableInv(ops);
    ErrorsBounded(Now(ops, id).value);
  }
}
