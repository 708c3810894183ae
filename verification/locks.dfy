/**
 Named locks. The Redis driver acquires one in a single script; the SQL driver needs up to four statements that share
 one captured `now` and may interleave with the statements of any number of other nodes.
 */
module Locks {
  import opened Types

  datatype Lease = Lease(node: string, expires: Time)

  type Table = map<string, Lease>

  // ---------------------------------------------------------------- the Redis script

  /** A key whose expiry has come reads as absent. */
  predicate FreeFor(t: Table, key: string, node: string, now: Time) {
    key in t && t[key].expires > now ==> t[key].node == node
  }

  function RenewScript(t: Table, key: string, node: string, now: Time, ttl: int): Table {
    if FreeFor(t, key, node, now) then t[key := Lease(node, now + ttl)] else t
  }

  // ---------------------------------------------------------------- the SQL statements

  /** The row that `UPDATE ... WHERE lock_key AND node_id AND expires_at > now` touches. */
  predicate Extendable(t: Table, key: string, node: string, now: Time) {
    key in t && t[key].node == node && t[key].expires > now
  }

  /** `DELETE ... WHERE lock_key AND expires_at <= now` */
  function DropExpired(t: Table, key: string, now: Time): Table {
    if key in t && t[key].expires <= now then t - {key} else t
  }

  /** `DELETE ... WHERE lock_key AND node_id` */
  function DropOwn(t: Table, key: string, node: string): Table {
    if key in t && t[key].node == node then t - {key} else t
  }

  class SqlLocks {
    var table: Table

    /**
     A call that nobody interrupts is granted unless another node's lease is running, leaves a row that expires `ttl`
     after `now`, and touches no other lock; a refused one changes nothing. The Redis script does the same.
     */
    method AcquireLock(key: string, node: string, now: Time, ttl: int) returns (granted: bool)
      modifies this
      ensures granted <==> key !in old(table) || old(table)[key].node == node || old(table)[key].expires <= now
      ensures granted ==> key in table && table[key] == Lease(node, now + ttl) && table - {key} == old(table) - {key}
      ensures !granted ==> table == old(table)
      ensures table == RenewScript(old(table), key, node, now, ttl)
    {
      if Extendable(table, key, node, now) {
        table := table[key := Lease(node, now + ttl)];
        return true;
      }
      table := DropExpired(table, key, now);
      if key in table {
        return table[key].node == node;
      }
      table := table[key := Lease(node, now + ttl)];
      return true;
    }

    method ReleaseLock(key: string, node: string)
      modifies this
      ensures forall k :: k in table <==> k in old(table) && !(k == key && old(table)[k].node == node)
      ensures forall k :: k in table ==> table[k] == old(table)[k]
    {
      table := DropOwn(table, key, node);
    }
  }

  /** A lock keeps out every other node for the whole ttl, and lets it in from then on. */
  method OthersMustWait(locks: SqlLocks, key: string, a: string, b: string, now: Time, ttl: nat, later: Time)
    returns (first: bool, second: bool)
    requires a != b && now <= later
    modifies locks
    ensures first ==> (second <==> now + ttl <= later)
    ensures first && !second ==> key in locks.table && locks.table[key] == Lease(a, now + ttl)
  {
    first := locks.AcquireLock(key, a, now, ttl);
    second := locks.AcquireLock(key, b, later, ttl);
  }

  // ---------------------------------------------------------------- interleaved calls

  /** A node makes at most one call at a time for a key. */
  datatype Caller = Caller(node: string, key: string)

  /** The statement a call is about to execute. */
  datatype Phase = Update | Delete | Insert | Select

  datatype Call = Call(phase: Phase, now: Time, ttl: int)

  /** `granted` is what the callers believe: until when they hold a lock that they have not released. */
  datatype System = System(clock: Time, table: Table, calls: map<Caller, Call>, granted: map<Caller, Time>)

  /** `Begin` captures the caller's reading of the time; `Abort` is a call that ends with an error. */
  datatype Action =
    | Tick(to: Time)
    | Begin(caller: Caller, now: Time, ttl: int)
    | Statement(caller: Caller)
    | Abort(caller: Caller)
    | Release(caller: Caller)

  /** Clocks of nodes may lag but do not run ahead. */
  predicate Enabled(s: System, a: Action) {
    match a
    case Tick(to) => s.clock <= to
    case Begin(c, now, _) => c !in s.calls && now <= s.clock
    case Statement(c) => c in s.calls
    case Abort(c) => c in s.calls
    case Release(c) => c !in s.calls
  }

  function Grant(s: System, c: Caller): System
    requires c in s.calls
  {
    var expires := s.calls[c].now + s.calls[c].ttl;
    s.(table := s.table[c.key := Lease(c.node, expires)], calls := s.calls - {c}, granted := s.granted[c := expires])
  }

  function Proceed(s: System, c: Caller, phase: Phase): System
    requires c in s.calls
  {
    s.(calls := s.calls[c := s.calls[c].(phase := phase)])
  }

  function Execute(s: System, c: Caller): System
    requires c in s.calls
  {
    var call := s.calls[c];
    match call.phase
    case Update => if Extendable(s.table, c.key, c.node, call.now) then Grant(s, c) else Proceed(s, c, Delete)
    case Delete => Proceed(s, c, Insert).(table := DropExpired(s.table, c.key, call.now))
    case Insert => if c.key in s.table then Proceed(s, c, Select) else Grant(s, c)
    case Select =>
      var done := s.(calls := s.calls - {c});
      if c.key in s.table && s.table[c.key].node == c.node
      then done.(granted := s.granted[c := call.now + call.ttl])
      else done
  }

  function Step(s: System, a: Action): System
    requires Enabled(s, a)
  {
    match a
    case Tick(to) => s.(clock := to)
    case Begin(c, now, ttl) => s.(calls := s.calls[c := Call(Update, now, ttl)])
    case Statement(c) => Execute(s, c)
    case Abort(c) => s.(calls := s.calls - {c})
    case Release(c) => s.(table := DropOwn(s.table, c.key, c.node), granted := s.granted - {c})
  }

  ghost predicate Run(s: System, actions: seq<Action>, s': System)
    decreases |actions|
  {
    if actions == [] then s' == s
    else Enabled(s, actions[0]) && Run(Step(s, actions[0]), actions[1..], s')
  }

  /** Nobody is calling and nobody believes anything; the table may hold rows left by earlier processes. */
  ghost predicate Start(s: System) {
    s.calls == map[] && s.granted == map[]
  }

  // ---------------------------------------------------------------- what every step keeps

  /** A belief that has not expired is backed by the row. */
  ghost predicate Backed(s: System, c: Caller) {
    c in s.granted && s.granted[c] > s.clock ==> c.key in s.table && s.table[c.key] == Lease(c.node, s.granted[c])
  }

  /** What a call has learnt about the row of its key by the time it reaches a phase. */
  ghost predicate Learnt(s: System, c: Caller) {
    c in s.calls ==>
      && s.calls[c].now <= s.clock
      && (c.key in s.table && s.table[c.key].node == c.node ==>
            match s.calls[c].phase
            case Update => true
            case Delete => s.table[c.key].expires <= s.calls[c].now
            case Insert => false
            case Select => false)
  }

  ghost predicate Inv(s: System) {
    && (forall c :: Backed(s, c))
    && (forall c :: Learnt(s, c))
  }

  /** Statements of one caller leave alone what another caller has learnt or believes. */
  lemma ExecuteKeeps(s: System, c: Caller, d: Caller)
    requires c in s.calls && Inv(s)
    ensures Backed(Execute(s, c), d) && Learnt(Execute(s, c), d)
  {
    assert Backed(s, c) && Learnt(s, c) && Backed(s, d) && Learnt(s, d);
  }

  lemma StepKeeps(s: System, a: Action)
    requires Inv(s) && Enabled(s, a)
    ensures Inv(Step(s, a))
  {
    hide Execute;
    forall d
      ensures Backed(Step(s, a), d) && Learnt(Step(s, a), d)
    {
      assert Backed(s, d) && Learnt(s, d);
      if a.Statement? {
        ExecuteKeeps(s, a.caller, d);
      }
    }
  }

  lemma {:induction false} RunKeeps(s: System, actions: seq<Action>, s': System)
    requires Inv(s) && Run(s, actions, s')
    ensures Inv(s')
    decreases |actions|
  {
    hide Inv, Step;
    if actions != [] {
      StepKeeps(s, actions[0]);
      RunKeeps(Step(s, actions[0]), actions[1..], s');
    }
  }

  // ---------------------------------------------------------------- safety

  /** However the statements of any number of nodes interleave, no two of them hold one lock at the same time. */
  lemma AtMostOneHolder(s0: System, actions: seq<Action>, s: System, a: Caller, b: Caller)
    requires Start(s0) && Run(s0, actions, s)
    requires a.key == b.key && a in s.granted && b in s.granted
    requires s.granted[a] > s.clock && s.granted[b] > s.clock
    ensures a == b
  {
    hide Run;
    RunKeeps(s0, actions, s);
    assert Backed(s, a) && Backed(s, b);
  }

  /** The closing SELECT never grants: a call that gets there is refused. */
  lemma FallbackNeverGrants(s0: System, actions: seq<Action>, s: System, c: Caller)
    requires Start(s0) && Run(s0, actions, s)
    requires c in s.calls && s.calls[c].phase.Select?
    ensures Execute(s, c) == s.(calls := s.calls - {c})
  {
    hide Run;
    RunKeeps(s0, actions, s);
    assert Learnt(s, c);
  }

  /** In every state, reachable or not: who may remove or change the row of a lock. */
  lemma RowLeavesOnlyBy(s: System, a: Action, key: string)
    requires Enabled(s, a) && key in s.table
    ensures key !in Step(s, a).table ==>
              || (a.Release? && a.caller == Caller(s.table[key].node, key))
              || (a.Statement? && a.caller.key == key && s.calls[a.caller].phase.Delete? &&
                  s.calls[a.caller].now >= s.table[key].expires)
    ensures key in Step(s, a).table && Step(s, a).table[key] != s.table[key] ==>
              && a == Statement(Caller(s.table[key].node, key))
              && Step(s, a).table[key].node == s.table[key].node
              && s.calls[a.caller].now < s.table[key].expires
  {}

  /**
   A call that ends before the SELECT was granted. That happens only where the atomic Redis script would grant, and
   only when every other holder's time is up.
   */
  lemma GrantsLikeTheScript(s0: System, actions: seq<Action>, s: System, c: Caller)
    requires Start(s0) && Run(s0, actions, s)
    requires c in s.calls && !s.calls[c].phase.Select? && c !in Execute(s, c).calls
    ensures FreeFor(s.table, c.key, c.node, s.clock)
    ensures Execute(s, c) == Grant(s, c)
    ensures forall d :: d != c && d.key == c.key && d in s.granted ==> s.granted[d] <= s.clock
  {
    hide Run;
    RunKeeps(s0, actions, s);
    assert Learnt(s, c);
    forall d | d != c && d.key == c.key && d in s.granted
      ensures s.granted[d] <= s.clock
    {
      assert Backed(s, d);
    }
  }

  lemma {:induction false} GrantStays(s: System, actions: seq<Action>, s': System, c: Caller)
    requires Run(s, actions, s') && c in s.granted
    requires forall k :: 0 <= k < |actions| ==> !actions[k].Tick? ==> actions[k].caller != c
    ensures c in s'.granted && s'.granted[c] == s.granted[c]
    decreases |actions|
  {
    if actions != [] {
      GrantStays(Step(s, actions[0]), actions[1..], s', c);
    }
  }

  /** Whatever the others do, a lock stays with its holder until the expiry it was granted. */
  lemma HeldUntilExpiry(s0: System, before: seq<Action>, s: System, during: seq<Action>, s': System, c: Caller)
    requires Start(s0) && Run(s0, before, s) && Run(s, during, s')
    requires c in s.granted && s'.clock < s.granted[c]
    requires forall k :: 0 <= k < |during| ==> !during[k].Tick? ==> during[k].caller != c
    ensures c.key in s'.table && s'.table[c.key] == Lease(c.node, s.granted[c])
  {
    hide Run;
    RunKeeps(s0, before, s);
    RunKeeps(s, during, s');
    GrantStays(s, during, s', c);
    assert Backed(s', c);
  }

  // ---------------------------------------------------------------- calls left alone

  /** The statements of one call until it ends, with no other step in between; there are at most four. */
  ghost function Finish(s: System, c: Caller, statements: nat): System
    decreases statements
  {
    if c in s.calls && statements > 0 then Finish(Execute(s, c), c, statements - 1) else s
  }

  /** The system when the call has ended, granted or not. */
  ghost predicate Ended(s: System, c: Caller, t: System, free: bool) {
    c in s.calls &&
    var expires := s.calls[c].now + s.calls[c].ttl;
    && t.calls == s.calls - {c} && t.clock == s.clock
    && t.table == (if free then s.table[c.key := Lease(c.node, expires)] else s.table)
    && t.granted == (if free then s.granted[c := expires] else s.granted)
  }

  lemma FromInsert(s: System, c: Caller)
    requires c in s.calls && s.calls[c].phase.Insert? && (c.key in s.table ==> s.table[c.key].node != c.node)
    ensures Ended(s, c, Finish(s, c, 2), c.key !in s.table)
  {
    var s1 := Execute(s, c);
    if c.key in s.table {
      var s2 := Execute(s1, c);
      assert Finish(s, c, 2) == Finish(s1, c, 1) == Finish(s2, c, 0) == s2;
      assert s2.calls == s.calls - {c};
    } else {
      assert Finish(s, c, 2) == Finish(s1, c, 1) == s1;
    }
  }

  lemma FromDelete(s: System, c: Caller)
    requires c in s.calls && s.calls[c].phase.Delete?
    requires c.key in s.table && s.table[c.key].node == c.node ==> s.table[c.key].expires <= s.calls[c].now
    ensures Ended(s, c, Finish(s, c, 3), c.key !in s.table || s.table[c.key].expires <= s.calls[c].now)
  {
    hide Finish;
    var s1 := Execute(s, c);
    FinishStep(s, c, 3);
    FromInsert(s1, c);
    assert s1.calls - {c} == s.calls - {c};
    var lease := Lease(c.node, s.calls[c].now + s.calls[c].ttl);
    assert s1.table[c.key := lease] == s.table[c.key := lease];
  }

  lemma FinishStep(s: System, c: Caller, n: nat)
    requires c in s.calls && n > 0
    ensures Finish(s, c, n) == Finish(Execute(s, c), c, n - 1)
  {}

  /**
   A call that no other step interrupts ends within four statements. It is granted exactly if there is no row, the
   caller's own or an expired one, and then holds the lock until the captured time plus the ttl.
   */
  lemma UninterruptedCall(s: System, c: Caller)
    requires c in s.calls && s.calls[c].phase.Update?
    ensures
      var t, now, ttl := Finish(s, c, 4), s.calls[c].now, s.calls[c].ttl;
      var free := c.key !in s.table || s.table[c.key].node == c.node || s.table[c.key].expires <= now;
      && t.calls == s.calls - {c} && t.clock == s.clock
      && t.table == (if free then s.table[c.key := Lease(c.node, now + ttl)] else s.table)
      && t.granted == (if free then s.granted[c := now + ttl] else s.granted)
  {
    hide Finish, Execute;
    FromUpdate(s, c);
  }

  lemma FromUpdate(s: System, c: Caller)
    requires c in s.calls && s.calls[c].phase.Update?
    ensures
      var free := c.key !in s.table || s.table[c.key].node == c.node || s.table[c.key].expires <= s.calls[c].now;
      Ended(s, c, Finish(s, c, 4), free)
  {
    hide Finish, Ended, Grant, Proceed;
    FinishStep(s, c, 4);
    if Extendable(s.table, c.key, c.node, s.calls[c].now) {
      GrantEnds(s, c);
      FinishDone(Grant(s, c), c, 3);
    } else {
      var s1 := Proceed(s, c, Delete);
      ProceedKeeps(s, c, s1);
      FromDelete(s1, c);
      EndedSame(s, s1, c, Finish(s1, c, 3), c.key !in s.table || s.table[c.key].expires <= s.calls[c].now);
    }
  }

  lemma GrantEnds(s: System, c: Caller)
    requires c in s.calls
    ensures c !in Grant(s, c).calls && Ended(s, c, Grant(s, c), true)
  {}

  lemma ProceedKeeps(s: System, c: Caller, s1: System)
    requires c in s.calls && s1 == Proceed(s, c, Delete)
    ensures s1.table == s.table && c in s1.calls && s1.calls[c] == s.calls[c].(phase := Delete)
    ensures s1.clock == s.clock && s1.granted == s.granted && s1.calls - {c} == s.calls - {c}
  {}

  lemma EndedSame(s: System, s1: System, c: Caller, t: System, free: bool)
    requires c in s.calls && c in s1.calls && s1.calls[c].now == s.calls[c].now && s1.calls[c].ttl == s.calls[c].ttl
    requires s1.table == s.table && s1.clock == s.clock && s1.granted == s.granted && s1.calls - {c} == s.calls - {c}
    requires Ended(s1, c, t, free)
    ensures Ended(s, c, t, free)
  {}

  lemma FinishDone(s: System, c: Caller, n: nat)
    requires c !in s.calls
    ensures Finish(s, c, n) == s
  {}

  // ---------------------------------------------------------------- where expiries come from

  /** Action `k` began a call with this reading of the time and this ttl. */
  ghost predicate BegunAt(past: seq<Action>, k: nat, c: Caller, now: Time, ttl: int) {
    k < |past| && past[k] == Begin(c, now, ttl)
  }

  ghost predicate CallBegun(past: seq<Action>, s: System, c: Caller) {
    c in s.calls ==>
      exists k :: BegunAt(past, k, c, s.calls[c].now, s.calls[c].ttl) && Since(past, k, c)
  }

  /** The caller has neither begun another call nor released the lock since. */
  ghost predicate Since(past: seq<Action>, k: nat, c: Caller) {
    forall j :: k < j < |past| ==> past[j] != Release(c) && (past[j].Begin? ==> past[j].caller != c)
  }

  ghost predicate BeliefBegun(past: seq<Action>, s: System, c: Caller) {
    c in s.granted ==>
      exists k, now, ttl :: BegunAt(past, k, c, now, ttl) && s.granted[c] == now + ttl && NotReleased(past, k, c)
  }

  ghost predicate NotReleased(past: seq<Action>, k: nat, c: Caller) {
    forall j :: k < j < |past| ==> past[j] != Release(c)
  }

  ghost predicate Begun(past: seq<Action>, s: System) {
    forall c :: CallBegun(past, s, c) && BeliefBegun(past, s, c)
  }

  lemma CallStaysBegun(past: seq<Action>, s: System, a: Action, c: Caller)
    requires Enabled(s, a) && CallBegun(past, s, c)
    ensures CallBegun(past + [a], Step(s, a), c)
  {
    var s', all := Step(s, a), past + [a];
    if c in s'.calls {
      if a.Begin? && a.caller == c {
        assert BegunAt(all, |past|, c, a.now, a.ttl) && Since(all, |past|, c);
      } else {
        assert s'.calls[c].now == s.calls[c].now && s'.calls[c].ttl == s.calls[c].ttl;
        var k :| BegunAt(past, k, c, s.calls[c].now, s.calls[c].ttl) && Since(past, k, c);
        assert BegunAt(all, k, c, s.calls[c].now, s.calls[c].ttl) && Since(all, k, c);
      }
    }
  }

  lemma BeliefStaysBegun(past: seq<Action>, s: System, a: Action, c: Caller)
    requires Enabled(s, a) && CallBegun(past, s, c) && BeliefBegun(past, s, c)
    ensures BeliefBegun(past + [a], Step(s, a), c)
  {
    var s', all := Step(s, a), past + [a];
    if c in s'.granted {
      if c in s.granted && s'.granted[c] == s.granted[c] && a != Release(c) {
        var k, now, ttl :| BegunAt(past, k, c, now, ttl) && s.granted[c] == now + ttl && NotReleased(past, k, c);
        assert BegunAt(all, k, c, now, ttl) && NotReleased(all, k, c);
      } else {
        assert a == Statement(c);
        var now, ttl := s.calls[c].now, s.calls[c].ttl;
        var k :| BegunAt(past, k, c, now, ttl) && Since(past, k, c);
        assert BegunAt(all, k, c, now, ttl) && NotReleased(all, k, c);
      }
    }
  }

  lemma {:induction false} RunIsBegun(past: seq<Action>, s: System, actions: seq<Action>, s': System)
    requires Run(s, actions, s') && Begun(past, s)
    ensures Begun(past + actions, s')
    decreases |actions|
  {
    hide Step, Enabled, CallBegun, BeliefBegun;
    if actions == [] {
      assert past + actions == past;
    } else {
      var a := actions[0];
      forall c
        ensures CallBegun(past + [a], Step(s, a), c) && BeliefBegun(past + [a], Step(s, a), c)
      {
        CallStaysBegun(past, s, a, c);
        BeliefStaysBegun(past, s, a, c);
      }
      RunIsBegun(past + [a], Step(s, a), actions[1..], s');
      assert past + [a] + actions[1..] == past + actions;
    }
  }

  /** Every lease of a run ends exactly its ttl after the time that the call which got it had captured when it began. */
  lemma LeasesLastTheirTtl(s0: System, actions: seq<Action>, s: System, c: Caller)
    requires Start(s0) && Run(s0, actions, s) && c in s.granted
    ensures exists k, now, ttl ::
              && BegunAt(actions, k, c, now, ttl)
              && s.granted[c] == now + ttl
              && NotReleased(actions, k, c)
  {
    hide Run;
    RunIsBegun([], s0, actions, s);
    assert [] + actions == actions;
    assert BeliefBegun(actions, s, c);
  }
}
