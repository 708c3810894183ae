/**
 Leader election over SQL: an UPDATE, an INSERT and a SELECT that share one captured `now`, interleaved with the
 statements of any number of other nodes. All nodes use one ttl.
 */
module Leadership {
  import opened Types

  /** The single row of the leader table. */
  datatype Leader = Leader(node: string, heartbeat: Time)

  /** The row that the UPDATE of an election touches: the caller's own, or one whose heartbeat is a ttl old. */
  predicate Takeable(row: Option<Leader>, node: string, now: Time, ttl: nat) {
    row.Some? && (row.value.node == node || row.value.heartbeat <= now - ttl)
  }

  /** The `DELETE` of a resignation. */
  function Vacated(row: Option<Leader>, node: string): Option<Leader> {
    if row.Some? && row.value.node == node then None else row
  }

  class SqlLeader {
    var row: Option<Leader>

    /** An uninterrupted election is won exactly when there is no other leader with a running lease. */
    method LeaderElection(node: string, now: Time, ttl: nat) returns (won: bool)
      modifies this
      ensures won <==> (old(row).Some? && now < old(row).value.heartbeat + ttl ==> old(row).value.node == node)
      ensures row == if won then Some(Leader(node, now)) else old(row)
    {
      if Takeable(row, node, now, ttl) {
        row := Some(Leader(node, now));
        return true;
      }
      if row.None? {
        row := Some(Leader(node, now));
        return true;
      }
      return row.value.node == node;
    }

    /** Whoever resigns is not the leader afterwards, and nobody else stops being it. */
    method ResignLeadership(node: string)
      modifies this
      ensures row.Some? ==> row == old(row) && row.value.node != node
      ensures old(row).Some? && old(row).value.node != node ==> row == old(row)
    {
      row := Vacated(row, node);
    }
  }

  // ---------------------------------------------------------------- interleaved calls

  datatype Phase = Update | Insert | Select

  datatype Call = Call(phase: Phase, now: Time)

  /** What happened to the row, in order. Only resignations that removed the row are events. */
  datatype Event = Won(node: string, now: Time) | Resigned(node: string)

  /** `seen` is each node's last reading of its clock, `leads` until when a node believes to lead. */
  datatype System = System(
    clock: Time,
    row: Option<Leader>,
    calls: map<string, Call>,
    seen: map<string, Time>,
    leads: map<string, Time>,
    events: seq<Event>)

  datatype Action =
    | Tick(to: Time)
    | Begin(node: string, now: Time)
    | Statement(node: string)
    | Abort(node: string)
    | Resign(node: string)

  /** A node makes one call at a time, and its clock does not go back and does not run ahead. */
  predicate Enabled(s: System, a: Action) {
    match a
    case Tick(to) => s.clock <= to
    case Begin(n, now) => n !in s.calls && now <= s.clock && (n in s.seen ==> s.seen[n] <= now)
    case Statement(n) => n in s.calls
    case Abort(n) => n in s.calls
    case Resign(n) => n !in s.calls
  }

  function Win(s: System, n: string, ttl: nat): System
    requires n in s.calls
  {
    var now := s.calls[n].now;
    s.(row := Some(Leader(n, now)),
       calls := s.calls - {n},
       leads := s.leads[n := now + ttl],
       events := s.events + [Won(n, now)])
  }

  function Execute(s: System, n: string, ttl: nat): System
    requires n in s.calls
  {
    var call := s.calls[n];
    match call.phase
    case Update =>
      if Takeable(s.row, n, call.now, ttl) then Win(s, n, ttl)
      else s.(calls := s.calls[n := call.(phase := Insert)])
    case Insert => if s.row.None? then Win(s, n, ttl) else s.(calls := s.calls[n := call.(phase := Select)])
    case Select =>
      var done := s.(calls := s.calls - {n});
      if s.row.Some? && s.row.value.node == n
      then done.(leads := s.leads[n := call.now + ttl], events := s.events + [Won(n, call.now)])
      else done
  }

  function Step(s: System, a: Action, ttl: nat): System
    requires Enabled(s, a)
  {
    match a
    case Tick(to) => s.(clock := to)
    case Begin(n, now) => s.(calls := s.calls[n := Call(Update, now)], seen := s.seen[n := now])
    case Statement(n) => Execute(s, n, ttl)
    case Abort(n) => s.(calls := s.calls - {n})
    case Resign(n) =>
      s.(row := Vacated(s.row, n),
         leads := s.leads - {n},
         events := if Vacated(s.row, n) == s.row then s.events else s.events + [Resigned(n)])
  }

  ghost predicate Run(s: System, actions: seq<Action>, s': System, ttl: nat)
    decreases |actions|
  {
    if actions == [] then s' == s
    else Enabled(s, actions[0]) && Run(Step(s, actions[0], ttl), actions[1..], s', ttl)
  }

  /**
   The table is empty or holds a row left by an earlier process, which may still believe to lead and whose clock does
   not go back behind what it wrote.
   */
  function Start(clock: Time, row: Option<Leader>, ttl: nat): System {
    match row
    case None => System(clock, None, map[], map[], map[], [])
    case Some(Leader(node, heartbeat)) =>
      System(clock, row, map[], map[node := heartbeat], map[node := heartbeat + ttl], [Won(node, heartbeat)])
  }

  ghost predicate Reachable(s: System, ttl: nat) {
    exists clock, row, actions :: Run(Start(clock, row, ttl), actions, s, ttl)
  }

  // ---------------------------------------------------------------- what every step keeps

  /** A belief whose time is not up is backed by the row. */
  ghost predicate Backed(s: System, n: string, ttl: nat) {
    n in s.leads && s.leads[n] > s.clock ==>
        s.row.Some? && s.row.value.node == n && s.row.value.heartbeat + ttl == s.leads[n]
  }

  ghost predicate CallOk(s: System, n: string) {
    n in s.calls ==>
      && s.calls[n].now <= s.clock
      && n in s.seen && s.calls[n].now == s.seen[n]
      && (!s.calls[n].phase.Update? ==> s.row.Some? ==> s.row.value.node != n)
  }

  /** Two wins in a row: the same node renewed, or another took over when the lease was up. */
  ghost predicate Follows(a: Event, b: Event, ttl: nat) {
    a.Won? && b.Won? ==> if a.node == b.node then a.now <= b.now else a.now + ttl <= b.now
  }

  /** Wins of one node are in the order of its clock, which has gone on since. */
  ghost predicate ClocksOk(s: System) {
    && (forall k :: 0 <= k < |s.events| && s.events[k].Won? ==>
         s.events[k].node in s.seen && s.events[k].now <= s.seen[s.events[k].node])
    && Climbs(s.events)
  }

  ghost predicate Climbs(events: seq<Event>) {
    forall i, j :: 0 <= i < j < |events| && events[i].Won? && events[j].Won? && events[i].node == events[j].node ==>
        events[i].now <= events[j].now
  }

  function RowAfter(events: seq<Event>): Option<Leader> {
    if events != [] && Last(events).Won? then Some(Leader(Last(events).node, Last(events).now)) else None
  }

  ghost predicate EventsOk(s: System, ttl: nat) {
    && (forall k :: 0 <= k < |s.events| - 1 ==> Follows(s.events[k], s.events[k + 1], ttl))
    && s.row == RowAfter(s.events)
    && (s.row.Some? ==> s.row.value.node in s.seen && s.row.value.heartbeat <= s.seen[s.row.value.node])
  }

  lemma StepKeepsClocks(s: System, a: Action, ttl: nat)
    requires ClocksOk(s) && Enabled(s, a) && (a.Statement? ==> CallOk(s, a.node))
    ensures ClocksOk(Step(s, a, ttl))
  {}

  ghost predicate Inv(s: System, ttl: nat) {
    && (forall n :: Backed(s, n, ttl))
    && (forall n :: CallOk(s, n))
    && EventsOk(s, ttl)
    && ClocksOk(s)
  }

  lemma NextEvent(events: seq<Event>, e: Event, ttl: nat)
    requires forall k :: 0 <= k < |events| - 1 ==> Follows(events[k], events[k + 1], ttl)
    requires events != [] ==> Follows(Last(events), e, ttl)
    ensures forall k :: 0 <= k < |events + [e]| - 1 ==> Follows((events + [e])[k], (events + [e])[k + 1], ttl)
  {
    hide Follows;
    var all := events + [e];
    forall k | 0 <= k < |all| - 1
      ensures Follows(all[k], all[k + 1], ttl)
    {
      if k + 1 < |events| { assert all[k] == events[k] && all[k + 1] == events[k + 1]; }
    }
  }

  lemma WinKeepsEvents(s: System, n: string, ttl: nat)
    requires EventsOk(s, ttl) && CallOk(s, n) && n in s.calls
    requires s.row.None? || Takeable(s.row, n, s.calls[n].now, ttl)
    ensures EventsOk(Win(s, n, ttl), ttl)
  {
    NextEvent(s.events, Won(n, s.calls[n].now), ttl);
  }

  lemma StepKeepsEvents(s: System, a: Action, ttl: nat)
    requires Inv(s, ttl) && Enabled(s, a)
    ensures EventsOk(Step(s, a, ttl), ttl)
  {
    hide Follows, Backed, ClocksOk;
    if a.Statement? {
      assert CallOk(s, a.node);
      if s.row.None? || Takeable(s.row, a.node, s.calls[a.node].now, ttl) {
        WinKeepsEvents(s, a.node, ttl);
      }
    } else if a.Resign? {
      FollowsResigned(s.events, a.node, ttl);
      NextEvent(s.events, Resigned(a.node), ttl);
    }
  }

  lemma FollowsResigned(events: seq<Event>, n: string, ttl: nat)
    ensures events != [] ==> Follows(Last(events), Resigned(n), ttl)
  {}

  lemma StepKeepsBeliefs(s: System, a: Action, n: string, ttl: nat)
    requires Inv(s, ttl) && Enabled(s, a)
    ensures Backed(Step(s, a, ttl), n, ttl) && CallOk(Step(s, a, ttl), n)
  {
    hide Follows, ClocksOk;
    assert Backed(s, n, ttl) && CallOk(s, n);
    if !a.Tick? {
      assert Backed(s, a.node, ttl) && CallOk(s, a.node);
    }
  }

  lemma {:induction false} RunKeeps(s: System, actions: seq<Action>, s': System, ttl: nat)
    requires Inv(s, ttl) && Run(s, actions, s', ttl)
    ensures Inv(s', ttl)
    decreases |actions|
  {
    hide Inv, Step;
    if actions != [] {
      StepKeeps(s, actions[0], ttl);
      RunKeeps(Step(s, actions[0], ttl), actions[1..], s', ttl);
    }
  }

  lemma StepKeeps(s: System, a: Action, ttl: nat)
    requires Inv(s, ttl) && Enabled(s, a)
    ensures Inv(Step(s, a, ttl), ttl)
  {
    hide Step, Backed, CallOk, EventsOk, ClocksOk;
    StepKeepsEvents(s, a, ttl);
    if a.Statement? { assert CallOk(s, a.node); }
    StepKeepsClocks(s, a, ttl);
    forall n
      ensures Backed(Step(s, a, ttl), n, ttl) && CallOk(Step(s, a, ttl), n)
    {
      StepKeepsBeliefs(s, a, n, ttl);
    }
  }

  // ---------------------------------------------------------------- safety

  lemma StartOk(clock: Time, row: Option<Leader>, ttl: nat)
    ensures Inv(Start(clock, row, ttl), ttl)
  {}

  lemma ReachableInv(s: System, ttl: nat)
    requires Reachable(s, ttl)
    ensures Inv(s, ttl)
  {
    hide Run, Inv;
    var clock, row, actions :| Run(Start(clock, row, ttl), actions, s, ttl);
    StartOk(clock, row, ttl);
    RunKeeps(Start(clock, row, ttl), actions, s, ttl);
  }

  /** At any moment at most one node believes to lead. */
  lemma AtMostOneLeader(s: System, ttl: nat, a: string, b: string)
    requires Reachable(s, ttl)
    requires a in s.leads && b in s.leads && s.leads[a] > s.clock && s.leads[b] > s.clock
    ensures a == b
  {
    hide Reachable, EventsOk;
    ReachableInv(s, ttl);
    assert Backed(s, a, ttl) && Backed(s, b, ttl);
  }

  /** The closing SELECT never makes a leader. */
  lemma FallbackNeverWins(s: System, ttl: nat, n: string)
    requires Reachable(s, ttl)
    requires n in s.calls && s.calls[n].phase.Select?
    ensures Execute(s, n, ttl) == s.(calls := s.calls - {n})
  {
    hide Reachable, EventsOk;
    ReachableInv(s, ttl);
    assert CallOk(s, n);
  }

  /** The statements of one election until it ends, with no other step in between; there are at most three. */
  ghost function Finish(s: System, n: string, ttl: nat, statements: nat): System
    decreases statements
  {
    if n in s.calls && statements > 0 then Finish(Execute(s, n, ttl), n, ttl, statements - 1) else s
  }

  /**
   An election that no other step interrupts ends within three statements, and is won exactly if there is no leader,
   the node itself leads, or the leader's heartbeat is at least a ttl old.
   */
  lemma UninterruptedElection(s: System, n: string, ttl: nat)
    requires n in s.calls && s.calls[n].phase.Update?
    ensures
      var t, now := Finish(s, n, ttl, 3), s.calls[n].now;
      var open := s.row.None? || s.row.value.node == n || s.row.value.heartbeat + ttl <= now;
      && t.calls == s.calls - {n} && t.clock == s.clock
      && t.row == (if open then Some(Leader(n, now)) else s.row)
      && t.leads == (if open then s.leads[n := now + ttl] else s.leads)
      && t.events == (if open then s.events + [Won(n, now)] else s.events)
  {
    hide Finish;
    var s1 := Execute(s, n, ttl);
    FinishStep(s, n, ttl, 3);
    FinishStep(s1, n, ttl, 2);
    if n in s1.calls {
      var s2 := Execute(s1, n, ttl);
      FinishStep(s2, n, ttl, 1);
      if n in s2.calls {
        var s3 := Execute(s2, n, ttl);
        FinishStep(s3, n, ttl, 0);
        assert s3.calls == s.calls - {n};
      }
      assert s1.calls - {n} == s.calls - {n};
    }
  }

  lemma FinishStep(s: System, n: string, ttl: nat, statements: nat)
    ensures n !in s.calls || statements == 0 ==> Finish(s, n, ttl, statements) == s
    ensures n in s.calls && statements > 0 ==>
              Finish(s, n, ttl, statements) == Finish(Execute(s, n, ttl), n, ttl, statements - 1)
  {}

  /** A leader that resigns hands over at once: the next election is won, however fresh the lease was. */
  lemma ResignationHandsOver(s: System, ttl: nat, n: string, m: string, now: Time)
    requires Enabled(s, Resign(n)) && s.row.Some? && s.row.value.node == n
    requires Enabled(s, Begin(m, now))
    ensures
      var s1 := Step(Step(s, Resign(n), ttl), Begin(m, now), ttl);
      var s2 := Execute(Execute(s1, m, ttl), m, ttl);
      && s2.row == Some(Leader(m, now)) && s2.leads == (s.leads - {n})[m := now + ttl]
      && s2.events == s.events + [Resigned(n), Won(m, now)] && s2.calls == s.calls
  {}

  /** Any other node that resigns gives up nothing: it was not leading, and the leader's row and belief stay. */
  lemma ResignationOfOthers(s: System, ttl: nat, n: string)
    requires Reachable(s, ttl) && Enabled(s, Resign(n)) && (s.row.Some? ==> s.row.value.node != n)
    ensures n in s.leads ==> s.leads[n] <= s.clock
    ensures Step(s, Resign(n), ttl) == s.(leads := s.leads - {n})
  {
    hide Reachable, EventsOk;
    ReachableInv(s, ttl);
    assert Backed(s, n, ttl);
  }

  ghost predicate WinsOnly(events: seq<Event>, i: nat, j: nat)
    requires j < |events|
  {
    forall k :: i <= k <= j ==> events[k].Won?
  }

  lemma {:induction false} WinsClimb(events: seq<Event>, i: nat, j: nat, ttl: nat)
    requires i <= j < |events| && WinsOnly(events, i, j)
    requires forall k :: 0 <= k < |events| - 1 ==> Follows(events[k], events[k + 1], ttl)
    ensures events[i].now <= events[j].now
    ensures events[i].node != events[j].node ==> events[i].now + ttl <= events[j].now
    decreases j
  {
    if i < j {
      WinsClimb(events, i, j - 1, ttl);
      assert Follows(events[j - 1], events[j - 1 + 1], ttl);
    }
  }

  /**
   The leases [now, now + ttl) of two different leaders do not overlap if nobody gave the leadership up between the
   two wins, however far the nodes' clocks lag.
   */
  lemma LeasesAreDisjoint(s: System, ttl: nat, i: nat, j: nat)
    requires Reachable(s, ttl)
    requires i < j < |s.events| && WinsOnly(s.events, i, j) && s.events[i].node != s.events[j].node
    ensures s.events[i].now + ttl <= s.events[j].now
  {
    hide Reachable, Follows, Backed, CallOk;
    ReachableInv(s, ttl);
    WinsClimb(s.events, i, j, ttl);
  }

  // ---------------------------------------------------------------- resignations

  /** The winner of `i` resigned before `j`. */
  ghost predicate GaveUp(events: seq<Event>, i: nat, j: nat)
    requires i < j <= |events| && events[i].Won?
  {
    exists k :: i < k < j && events[k] == Resigned(events[i].node)
  }

  /** The win at `i` is by another node than the win at `j`, and that node has not resigned in between. */
  ghost predicate Held(events: seq<Event>, i: nat, j: nat)
    requires i < j < |events|
  {
    events[i].Won? && events[j].Won? && events[i].node != events[j].node && !GaveUp(events, i, j)
  }

  ghost predicate LastHeld(events: seq<Event>, i: nat, j: nat)
    requires i < j < |events|
  {
    Held(events, i, j) && forall k :: i < k < j ==> !Held(events, k, j)
  }

  /** A win by INSERT, which follows a resignation, captured its time behind the last lease that is still held. */
  ghost predicate TimelyInsert(events: seq<Event>, j: nat, ttl: nat)
    requires 0 < j < |events|
  {
    events[j - 1].Resigned? ==>
      forall i :: 0 <= i < j && LastHeld(events, i, j) ==> events[i].now + ttl <= events[j].now
  }

  ghost predicate Disjoint(events: seq<Event>, i: nat, j: nat, ttl: nat)
    requires i < j < |events|
  {
    Held(events, i, j) ==> events[i].now + ttl <= events[j].now
  }

  /**
   The leases of different nodes are disjoint, unless the earlier leader resigned, exactly when no INSERT after a
   resignation uses a time captured before the end of the last lease that another node still held.
   */
  lemma LeasesDisjointIff(s: System, ttl: nat)
    requires Reachable(s, ttl)
    ensures (forall i, j :: 0 <= i < j < |s.events| ==> Disjoint(s.events, i, j, ttl)) <==>
            (forall j :: 0 < j < |s.events| ==> TimelyInsert(s.events, j, ttl))
  {
    hide Reachable, Follows, Backed, CallOk, Held, Climbs;
    ReachableInv(s, ttl);
    if forall j :: 0 < j < |s.events| ==> TimelyInsert(s.events, j, ttl) {
      forall i, j | 0 <= i < j < |s.events|
        ensures Disjoint(s.events, i, j, ttl)
      {
        TimelyInsertsSuffice(s.events, i, j, ttl);
      }
    } else {
      var j :| 0 < j < |s.events| && !TimelyInsert(s.events, j, ttl);
      var i :| 0 <= i < j && LastHeld(s.events, i, j) && !Disjoint(s.events, i, j, ttl);
    }
  }

  lemma {:induction false} FindLastHeld(events: seq<Event>, i: nat, j: nat) returns (l: nat)
    requires i < j < |events| && Held(events, i, j)
    ensures i <= l < j && LastHeld(events, l, j)
    decreases j - i
  {
    hide Held;
    if k :| i < k < j && Held(events, k, j) {
      l := FindLastHeld(events, k, j);
    } else {
      l := i;
    }
  }

  lemma HeldBefore(events: seq<Event>, i: nat, l: nat, j: nat)
    requires i < l < j < |events| && Held(events, i, j) && events[l].Won?
    ensures events[l].node == events[i].node || Held(events, i, l)
  {}

  lemma {:induction false} TimelyInsertsSuffice(events: seq<Event>, i: nat, j: nat, ttl: nat)
    requires i < j < |events| && Climbs(events)
    requires forall k :: 0 <= k < |events| - 1 ==> Follows(events[k], events[k + 1], ttl)
    requires forall k :: 0 < k < |events| ==> TimelyInsert(events, k, ttl)
    ensures Disjoint(events, i, j, ttl)
    decreases j
  {
    if Held(events, i, j) {
      assert TimelyInsert(events, j, ttl);
      var l := j - 1;
      assert Follows(events[l], events[l + 1], ttl);
      if events[l].Resigned? {
        l := FindLastHeld(events, i, j);
      }
      if i < l {
        HeldBefore(events, i, l, j);
        TimelyInsertsSuffice(events, i, l, ttl);
      }
    }
  }

  /**
   It is not enough that the earlier leader did not resign. Here a leads from 0 to 10, c takes over at 10 and resigns,
   and then b, which read its clock at 5, inserts its row: the leases of a and b overlap.
   */
  lemma ThirdPartyResignation() returns (actions: seq<Action>, s: System)
    ensures Run(Start(0, None, 10), actions, s, 10)
    ensures s.events == [Won("a", 0), Won("c", 10), Resigned("c"), Won("b", 5)]
    ensures Reachable(s, 10) && !Disjoint(s.events, 0, 3, 10)
  {
    hide Step, Enabled, Run;
    var first := [Begin("a", 0), Statement("a"), Statement("a")];
    var second := [Tick(5), Begin("b", 5), Statement("b"), Tick(10)];
    var third, fourth := [Begin("c", 10), Statement("c"), Resign("c")], [Statement("b")];
    var s1 := AWins();
    var s2 := BWaits(s1);
    var s3 := CResigns(s2);
    s := BInserts(s3);
    RunJoin(Start(0, None, 10), first, s1, second, s2, 10);
    RunJoin(Start(0, None, 10), first + second, s2, third, s3, 10);
    RunJoin(Start(0, None, 10), first + second + third, s3, fourth, s, 10);
    actions := first + second + third + fourth;
  }

  lemma AWins() returns (s: System)
    ensures Run(Start(0, None, 10), [Begin("a", 0), Statement("a"), Statement("a")], s, 10)
    ensures s == System(0, Some(Leader("a", 0)), map[], map["a" := 0], map["a" := 10], [Won("a", 0)])
  {
    s := System(0, Some(Leader("a", 0)), map[], map["a" := 0], map["a" := 10], [Won("a", 0)]);
  }

  lemma BWaits(s: System) returns (s': System)
    requires s == System(0, Some(Leader("a", 0)), map[], map["a" := 0], map["a" := 10], [Won("a", 0)])
    ensures Run(s, [Tick(5), Begin("b", 5), Statement("b"), Tick(10)], s', 10)
    ensures s' == s.(clock := 10, calls := map["b" := Call(Insert, 5)], seen := s.seen["b" := 5])
  {
    s' := s.(clock := 10, calls := map["b" := Call(Insert, 5)], seen := s.seen["b" := 5]);
  }

  lemma CResigns(s: System) returns (s': System)
    requires s.clock == 10 && s.row == Some(Leader("a", 0)) && s.calls == map["b" := Call(Insert, 5)] && "c" !in s.seen
    ensures Run(s, [Begin("c", 10), Statement("c"), Resign("c")], s', 10)
    ensures s'.row == None && s'.calls == s.calls && s'.events == s.events + [Won("c", 10), Resigned("c")]
  {
    var s1 := Step(s, Begin("c", 10), 10);
    var s2 := Step(s1, Statement("c"), 10);
    s' := Step(s2, Resign("c"), 10);
  }

  lemma BInserts(s: System) returns (s': System)
    requires s.row == None && s.calls == map["b" := Call(Insert, 5)]
    ensures Run(s, [Statement("b")], s', 10)
    ensures s'.events == s.events + [Won("b", 5)]
  {
    s' := Step(s, Statement("b"), 10);
  }

  lemma {:induction false} RunJoin(s: System, a: seq<Action>, s1: System, b: seq<Action>, s2: System, ttl: nat)
    requires Run(s, a, s1, ttl) && Run(s1, b, s2, ttl)
    ensures Run(s, a + b, s2, ttl)
    decreases |a|
  {
    hide Step, Enabled;
    if a == [] {
      assert a + b == b;
    } else {
      RunJoin(Step(s, a[0], ttl), a[1..], s1, b, s2, ttl);
      assert (a + b)[1..] == a[1..] + b;
    }
  }
}
