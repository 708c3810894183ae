/**
 The SQL query builder: conditions, arguments and placeholder numbers grow together. The conditions are kept as
 syntax trees whose leaves are placeholder numbers.
 */
module QueryBuilder {
  import opened Types
  import opened JobFilter

  datatype Column = StateColumn | QueueColumn | KindColumn

  datatype Arg = Text(text: string) | Number(number: int)

  /** `col IN (slots)`, `(kind LIKE slot OR uuid LIKE slot)`, and membership of a slot in the row's tags. */
  datatype Condition = In(column: Column, slots: seq<nat>) | Search(kindSlot: nat, uuidSlot: nat) | HasTag(slot: nat)

  function Value(row: Row, column: Column): string {
    match column
    case StateColumn => StateName(row.state)
    case QueueColumn => row.spec.queue
    case KindColumn => row.spec.kind
  }

  /** The argument bound to placeholder `n`. */
  function Bound(args: seq<Arg>, n: nat): Option<Arg> {
    if 1 <= n <= |args| then Some(args[n - 1]) else None
  }

  /** What the database makes of a condition. */
  predicate Holds(c: Condition, args: seq<Arg>, row: Row, esc: bool) {
    match c
    case In(column, slots) => exists k :: 0 <= k < |slots| && Bound(args, slots[k]) == Some(Text(Value(row, column)))
    case Search(a, b) =>
      || (Bound(args, a).Some? && Bound(args, a).value.Text? && Like(Bound(args, a).value.text, row.spec.kind, esc))
      || (Bound(args, b).Some? && Bound(args, b).value.Text? && Like(Bound(args, b).value.text, row.spec.uuid, esc))
    case HasTag(n) => Bound(args, n).Some? && Bound(args, n).value.Text? && Bound(args, n).value.text in row.spec.tags
  }

  predicate AllHold(cs: seq<Condition>, args: seq<Arg>, row: Row, esc: bool) {
    forall k :: 0 <= k < |cs| ==> Holds(cs[k], args, row, esc)
  }

  /** The placeholders of a condition, in the order they are written. */
  function Slots(c: Condition): seq<nat> {
    match c
    case In(_, slots) => slots
    case Search(a, b) => [a, b]
    case HasTag(n) => [n]
  }

  function AllSlots(cs: seq<Condition>): seq<nat> {
    if cs == [] then [] else AllSlots(Front(cs)) + Slots(Last(cs))
  }

  /** `n` consecutive numbers from `first`. */
  function Range(first: nat, n: nat): (r: seq<nat>)
    ensures |r| == n && forall k :: 0 <= k < n ==> r[k] == first + k
  {
    seq(n, (k: nat) => first + k)
  }

  function Texts(values: seq<string>): (r: seq<Arg>)
    ensures |r| == |values| && forall k :: 0 <= k < |values| ==> r[k] == Text(values[k])
  {
    seq(|values|, k requires 0 <= k < |values| => Text(values[k]))
  }

  function StateNames(states: seq<State>): (r: seq<string>)
    ensures |r| == |states| && forall k :: 0 <= k < |states| ==> r[k] == StateName(states[k])
  {
    seq(|states|, k requires 0 <= k < |states| => StateName(states[k]))
  }

  // ---------------------------------------------------------------- the meaning of a partial query

  predicate LikeSearch(search: string, s: string, esc: bool) {
    Like("%" + search + "%", s, esc)
  }

  /** The part of a filter that the builder has dealt with when it has reached stage `n`; tags come one by one. */
  ghost predicate MatchesUpTo(row: Row, f: Filter, esc: bool, stage: nat, tags: nat)
    requires tags <= |f.tags|
  {
    && (stage >= 1 && f.states != [] ==> row.state in f.states)
    && (stage >= 2 && f.queues != [] ==> row.spec.queue in f.queues)
    && (stage >= 3 && f.kinds != [] ==> row.spec.kind in f.kinds)
    && (stage >= 4 ==>
          f.search == "" || LikeSearch(f.search, row.spec.kind, esc) || LikeSearch(f.search, row.spec.uuid, esc))
    && (forall k :: 0 <= k < tags ==> f.tags[k] in row.spec.tags)
  }

  /**
   A partial query is sound: its placeholders are 1, 2, ... in the order written, one per argument, and however the
   argument list is extended the conditions hold of exactly the rows that match so far.
   */
  ghost predicate Sound(cs: seq<Condition>, args: seq<Arg>, f: Filter, esc: bool, stage: nat, tags: nat)
    requires tags <= |f.tags|
  {
    && AllSlots(cs) == Range(1, |args|)
    && forall row, more: seq<Arg> {:trigger AllHold(cs, args + more, row, esc)} ::
         AllHold(cs, args + more, row, esc) <==> MatchesUpTo(row, f, esc, stage, tags)
  }

  /** Adding condition `c` takes a query from one stage to another, under the arguments `all`. */
  ghost predicate Adds(c: Condition, all: seq<Arg>, row: Row, f: Filter, esc: bool, stage: nat, tags: nat, stage': nat,
      tags': nat)
    requires tags <= |f.tags| && tags' <= |f.tags|
  {
    MatchesUpTo(row, f, esc, stage, tags) && Holds(c, all, row, esc) <==> MatchesUpTo(row, f, esc, stage', tags')
  }

  lemma AllHoldNext(cs: seq<Condition>, c: Condition, args: seq<Arg>, row: Row, esc: bool)
    ensures AllHold(cs + [c], args, row, esc) <==> AllHold(cs, args, row, esc) && Holds(c, args, row, esc)
  {
    var all := cs + [c];
    if AllHold(all, args, row, esc) {
      forall k | 0 <= k < |cs|
        ensures Holds(cs[k], args, row, esc)
      {
        assert all[k] == cs[k];
      }
      assert all[|cs|] == c;
    }
  }

  /** Adding a condition whose placeholders are the next ones keeps a query sound. */
  lemma SoundNext(cs: seq<Condition>, args: seq<Arg>, c: Condition, new_: seq<Arg>, f: Filter, esc: bool, stage: nat,
      tags: nat, stage': nat, tags': nat)
    requires tags <= |f.tags| && tags' <= |f.tags|
    requires Sound(cs, args, f, esc, stage, tags)
    requires Slots(c) == Range(|args| + 1, |new_|)
    requires forall row, more: seq<Arg> :: Adds(c, args + new_ + more, row, f, esc, stage, tags, stage', tags')
    ensures Sound(cs + [c], args + new_, f, esc, stage', tags')
  {
    hide MatchesUpTo, Holds, AllHold;
    assert Front(cs + [c]) == cs;
    assert AllSlots(cs + [c]) == Range(1, |args + new_|);
    forall row, more: seq<Arg>
      ensures AllHold(cs + [c], args + new_ + more, row, esc) <==> MatchesUpTo(row, f, esc, stage', tags')
    {
      assert args + new_ + more == args + (new_ + more);
      AllHoldNext(cs, c, args + (new_ + more), row, esc);
      assert Adds(c, args + new_ + more, row, f, esc, stage, tags, stage', tags');
    }
  }

  /** A stage that adds nothing because its part of the filter is empty. */
  lemma SoundSkip(cs: seq<Condition>, args: seq<Arg>, f: Filter, esc: bool, stage: nat, tags: nat, stage': nat)
    requires tags <= |f.tags| && Sound(cs, args, f, esc, stage, tags)
    requires forall row :: MatchesUpTo(row, f, esc, stage, tags) <==> MatchesUpTo(row, f, esc, stage', tags)
    ensures Sound(cs, args, f, esc, stage', tags)
  {
    hide MatchesUpTo, Holds, AllHold;
  }

  /** `col IN (...)` over freshly bound texts is membership. */
  lemma InIsMember(column: Column, args: seq<Arg>, values: seq<string>, more: seq<Arg>, row: Row, esc: bool)
    ensures Holds(In(column, Range(|args| + 1, |values|)), args + Texts(values) + more, row, esc) <==>
              Value(row, column) in values
  {
    hide Texts, Bound, Value;
    var all, slots := args + Texts(values) + more, Range(|args| + 1, |values|);
    forall k | 0 <= k < |values|
      ensures Bound(all, slots[k]) == Some(Text(values[k]))
    {
      BoundFresh(args, values, more, k);
    }
    if Value(row, column) in values {
      var k :| 0 <= k < |values| && values[k] == Value(row, column);
      assert Bound(all, slots[k]) == Some(Text(Value(row, column)));
    }
  }

  lemma BoundFresh(args: seq<Arg>, values: seq<string>, more: seq<Arg>, k: nat)
    requires k < |values|
    ensures Bound(args + Texts(values) + more, |args| + 1 + k) == Some(Text(values[k]))
  {}

  lemma StateInNames(states: seq<State>, s: State)
    ensures StateName(s) in StateNames(states) <==> s in states
  {
    if s in states {
      var k :| 0 <= k < |states| && states[k] == s;
      assert StateNames(states)[k] == StateName(s);
    }
    if StateName(s) in StateNames(states) {
      var k :| 0 <= k < |states| && StateNames(states)[k] == StateName(s);
      StateNamesDiffer(states[k], s);
    }
  }

  // ---------------------------------------------------------------- the builder

  /** One `column IN (...)` block: a placeholder and an argument per value. */
  method AppendIn(column: Column, values: seq<string>, cs: seq<Condition>, args: seq<Arg>, argIdx: nat)
    returns (cs': seq<Condition>, args': seq<Arg>, argIdx': nat)
    requires argIdx == |args| + 1
    ensures argIdx' == |args'| + 1
    ensures values == [] ==> cs' == cs && args' == args
    ensures values != [] ==> cs' == cs + [In(column, Range(|args| + 1, |values|))] && args' == args + Texts(values)
  {
    cs', args', argIdx' := cs, args, argIdx;
    if |values| > 0 {
      var placeholders: seq<nat> := [];
      for i := 0 to |values|
        invariant placeholders == Range(|args| + 1, i)
        invariant args' == args + Texts(values[..i]) && argIdx' == |args'| + 1
      {
        placeholders := placeholders + [argIdx'];
        assert Texts(values[..i + 1]) == Texts(values[..i]) + [Text(values[i])];
        args' := args' + [Text(values[i])];
        argIdx' := argIdx' + 1;
      }
      assert values[..|values|] == values;
      cs' := cs' + [In(column, placeholders)];
    }
  }

  /** The WHERE clause and its arguments. */
  method BuildWhere(f: Filter, esc: bool) returns (cs: seq<Condition>, args: seq<Arg>, argIdx: nat)
    ensures argIdx == |args| + 1
    ensures Sound(cs, args, f, esc, 4, |f.tags|)
  {
    hide Holds, AllHold, MatchesUpTo, Sound, StateName, StateNames, Texts;
    cs, args, argIdx := [], [], 1;
    SoundStart(f, esc);
    ghost var cs0, args0 := cs, args;
    cs, args, argIdx := AppendIn(StateColumn, StateNames(f.states), cs, args, argIdx);
    StatesStage(cs0, args0, f, esc);
    ghost var cs1, args1 := cs, args;
    cs, args, argIdx := AppendIn(QueueColumn, f.queues, cs, args, argIdx);
    QueuesStage(cs1, args1, f, esc);
    ghost var cs2, args2 := cs, args;
    cs, args, argIdx := AppendIn(KindColumn, f.kinds, cs, args, argIdx);
    KindsStage(cs2, args2, f, esc);
    SearchStage(cs, args, f, esc);
    if f.search != "" {
      cs := cs + [Search(argIdx, argIdx + 1)];
      var search := "%" + f.search + "%";
      args := args + [Text(search), Text(search)];
      argIdx := argIdx + 2;
    }
    for i := 0 to |f.tags|
      invariant argIdx == |args| + 1
      invariant Sound(cs, args, f, esc, 4, i)
    {
      TagStage(cs, args, f, esc, i);
      cs := cs + [HasTag(argIdx)];
      args := args + [Text(f.tags[i])];
      argIdx := argIdx + 1;
    }
  }

  lemma SoundStart(f: Filter, esc: bool)
    ensures Sound([], [], f, esc, 0, 0)
  {}

  lemma StatesStage(cs: seq<Condition>, args: seq<Arg>, f: Filter, esc: bool)
    requires Sound(cs, args, f, esc, 0, 0)
    ensures |StateNames(f.states)| == |f.states|
    ensures if f.states == [] then Sound(cs, args, f, esc, 1, 0)
            else
              var names := StateNames(f.states);
              Sound(cs + [In(StateColumn, Range(|args| + 1, |names|))], args + Texts(names), f, esc, 1, 0)
  {
    hide Sound, Holds, LikeSearch, StateName;
    if f.states == [] {
      SoundSkip(cs, args, f, esc, 0, 0, 1);
    } else {
      var names := StateNames(f.states);
      var c := In(StateColumn, Range(|args| + 1, |names|));
      forall row, more: seq<Arg>
        ensures Adds(c, args + Texts(names) + more, row, f, esc, 0, 0, 1, 0)
      {
        InIsMember(StateColumn, args, names, more, row, esc);
        StateInNames(f.states, row.state);
      }
      SoundNext(cs, args, c, Texts(names), f, esc, 0, 0, 1, 0);
    }
  }

  lemma QueuesStage(cs: seq<Condition>, args: seq<Arg>, f: Filter, esc: bool)
    requires Sound(cs, args, f, esc, 1, 0)
    ensures if f.queues == [] then Sound(cs, args, f, esc, 2, 0)
            else Sound(cs + [In(QueueColumn, Range(|args| + 1, |f.queues|))], args + Texts(f.queues), f, esc, 2, 0)
  {
    hide Sound, Holds, LikeSearch;
    if f.queues == [] {
      SoundSkip(cs, args, f, esc, 1, 0, 2);
    } else {
      var c := In(QueueColumn, Range(|args| + 1, |f.queues|));
      forall row, more: seq<Arg>
        ensures Adds(c, args + Texts(f.queues) + more, row, f, esc, 1, 0, 2, 0)
      {
        InIsMember(QueueColumn, args, f.queues, more, row, esc);
      }
      SoundNext(cs, args, c, Texts(f.queues), f, esc, 1, 0, 2, 0);
    }
  }

  lemma KindsStage(cs: seq<Condition>, args: seq<Arg>, f: Filter, esc: bool)
    requires Sound(cs, args, f, esc, 2, 0)
    ensures if f.kinds == [] then Sound(cs, args, f, esc, 3, 0)
            else Sound(cs + [In(KindColumn, Range(|args| + 1, |f.kinds|))], args + Texts(f.kinds), f, esc, 3, 0)
  {
    hide Sound, Holds, LikeSearch;
    if f.kinds == [] {
      SoundSkip(cs, args, f, esc, 2, 0, 3);
    } else {
      var c := In(KindColumn, Range(|args| + 1, |f.kinds|));
      forall row, more: seq<Arg>
        ensures Adds(c, args + Texts(f.kinds) + more, row, f, esc, 2, 0, 3, 0)
      {
        InIsMember(KindColumn, args, f.kinds, more, row, esc);
      }
      SoundNext(cs, args, c, Texts(f.kinds), f, esc, 2, 0, 3, 0);
    }
  }

  lemma SearchStage(cs: seq<Condition>, args: seq<Arg>, f: Filter, esc: bool)
    requires Sound(cs, args, f, esc, 3, 0)
    ensures
      var search := "%" + f.search + "%";
      if f.search == "" then Sound(cs, args, f, esc, 4, 0)
      else Sound(cs + [Search(|args| + 1, |args| + 2)], args + [Text(search), Text(search)], f, esc, 4, 0)
  {
    hide Sound, Like;
    if f.search == "" {
      SoundSkip(cs, args, f, esc, 3, 0, 4);
    } else {
      var search := "%" + f.search + "%";
      var c, new_ := Search(|args| + 1, |args| + 2), [Text(search), Text(search)];
      forall row, more: seq<Arg>
        ensures Adds(c, args + new_ + more, row, f, esc, 3, 0, 4, 0)
      {}
      SoundNext(cs, args, c, new_, f, esc, 3, 0, 4, 0);
    }
  }

  lemma TagStage(cs: seq<Condition>, args: seq<Arg>, f: Filter, esc: bool, i: nat)
    requires i < |f.tags| && Sound(cs, args, f, esc, 4, i)
    ensures Sound(cs + [HasTag(|args| + 1)], args + [Text(f.tags[i])], f, esc, 4, i + 1)
  {
    hide Sound, Like, LikeSearch;
    var c, new_, next := HasTag(|args| + 1), [Text(f.tags[i])], i + 1;
    forall row, more: seq<Arg>
      ensures Adds(c, args + new_ + more, row, f, esc, 4, i, 4, next)
    {
      assert Bound(args + new_ + more, |args| + 1) == Some(Text(f.tags[i]));
    }
    SoundNext(cs, args, c, new_, f, esc, 4, i, 4, next);
  }

  /** The columns a caller may sort by. Their names go into the text of the query. */
  const SORTABLE: set<string> := {
    "id", "uuid", "queue", "kind", "state", "priority", "attempt", "scheduled_at", "created_at",
    "started_at", "completed_at", "finalized_at"}

  /** `ORDER BY column`, with DESC or ASC. */
  datatype OrderBy = OrderBy(column: string, desc: bool)

  /** A direction counts only for a column that may be sorted by; anything else lists the newest jobs first. */
  function SqlOrder(f: Filter): OrderBy {
    if f.orderBy in SORTABLE then OrderBy(f.orderBy, Lower(f.order) != "asc") else OrderBy("created_at", true)
  }

  /** A finished query: WHERE conditions, the order, the placeholders of LIMIT and OFFSET, and all arguments. */
  datatype Query = Query(conditions: seq<Condition>, orderBy: OrderBy, limitSlot: nat, offsetSlot: nat, args: seq<Arg>)

  /** The filter as the database understands it: search is LIKE, everything else is as the Redis driver reads it. */
  predicate SqlMatches(row: Row, f: Filter, esc: bool) {
    && (f.states != [] ==> row.state in f.states)
    && (f.queues != [] ==> row.spec.queue in f.queues)
    && (f.kinds != [] ==> row.spec.kind in f.kinds)
    && (forall k :: 0 <= k < |f.tags| ==> f.tags[k] in row.spec.tags)
    && (f.search == "" || LikeSearch(f.search, row.spec.kind, esc) || LikeSearch(f.search, row.spec.uuid, esc))
  }

  lemma FullMatch(row: Row, f: Filter, esc: bool)
    ensures MatchesUpTo(row, f, esc, 4, |f.tags|) <==> SqlMatches(row, f, esc)
  {}

  /**
   The whole query: placeholders are numbered 1, 2, ... as they are written, LIMIT and OFFSET bind the last two
   arguments, both the data query and the count query select exactly the rows the filter describes, and nothing of
   the caller's text but a known column name is written into the query.
   */
  method BuildQuery(f: Filter, esc: bool) returns (q: Query, countArgs: seq<Arg>)
    ensures AllSlots(q.conditions) + [q.limitSlot, q.offsetSlot] == Range(1, |q.args|)
    ensures Bound(q.args, q.limitSlot) == Some(Number(if f.limit <= 0 then 50 else f.limit))
    ensures Bound(q.args, q.offsetSlot) == Some(Number(if f.offset < 0 then 0 else f.offset))
    ensures AllSlots(q.conditions) == Range(1, |countArgs|)
    ensures q.orderBy == SqlOrder(f) && q.orderBy.column in SORTABLE
    ensures forall row :: AllHold(q.conditions, q.args, row, esc) <==> SqlMatches(row, f, esc)
    ensures forall row :: AllHold(q.conditions, countArgs, row, esc) <==> SqlMatches(row, f, esc)
  {
    hide Holds, AllHold, MatchesUpTo, SqlMatches;
    var cs, args, argIdx := BuildWhere(f, esc);
    countArgs := args;
    var limit, offset := f.limit, f.offset;
    if limit <= 0 { limit := 50; }
    if offset < 0 { offset := 0; }
    var orderBy := OrderBy("created_at", true);
    if f.orderBy in SORTABLE {
      var desc := true;
      if Lower(f.order) == "asc" { desc := false; }
      orderBy := OrderBy(f.orderBy, desc);
    }
    q := Query(cs, orderBy, argIdx, argIdx + 1, args + [Number(limit), Number(offset)]);
    forall row
      ensures AllHold(cs, q.args, row, esc) <==> SqlMatches(row, f, esc)
      ensures AllHold(cs, countArgs, row, esc) <==> SqlMatches(row, f, esc)
    {
      FullMatch(row, f, esc);
      assert countArgs == args + [];
      assert AllHold(cs, args + [], row, esc) <==> MatchesUpTo(row, f, esc, 4, |f.tags|);
      assert AllHold(cs, args + [Number(limit), Number(offset)], row, esc) <==> MatchesUpTo(row, f, esc, 4, |f.tags|);
    }
  }

  // ---------------------------------------------------------------- agreement with the Redis filter

  /** Searches that mean the same in both drivers: no metacharacter, or every allowed kind is found either way. */
  predicate SearchesAlike(f: Filter, esc: bool) {
    || Plain(f.search, esc)
    || (f.kinds != [] && forall k :: 0 <= k < |f.kinds| ==> FoundEitherWay(f.search, f.kinds[k], esc))
  }

  predicate FoundEitherWay(search: string, kind: string, esc: bool) {
    LikeSearch(search, kind, esc) && Contains(Lower(kind), Lower(search))
  }

  /** A row that passes everything but the search. */
  function Sample(f: Filter, kind: string, uuid: string): (row: Row)
    requires f.kinds != [] ==> kind in f.kinds
    ensures row.spec.kind == kind && row.spec.uuid == uuid
    ensures forall esc :: SqlMatches(row, f, esc) <==>
              f.search == "" || LikeSearch(f.search, kind, esc) || LikeSearch(f.search, uuid, esc)
    ensures Matches(row, f) <==>
              || f.search == ""
              || Contains(Lower(kind), Lower(f.search))
              || Contains(Lower(uuid), Lower(f.search))
  {
    var spec := Spec(uuid, if f.queues == [] then "" else f.queues[0], kind, "", f.tags, map[], 0, 0, "", 0, 0);
    Row(0, spec, if f.states == [] then Available else f.states[0], 0, [], None, [], None, 0, None, None, None, "")
  }

  /** A filter selects the same rows through SQL as through the Redis driver exactly when its search is read alike. */
  lemma FiltersAgreeIff(f: Filter, esc: bool)
    ensures (forall row :: SqlMatches(row, f, esc) <==> Matches(row, f)) <==> SearchesAlike(f, esc)
  {
    hide Contains, Lower, Like, Plain, LikeSearch;
    if SearchesAlike(f, esc) {
      forall row
        ensures SqlMatches(row, f, esc) <==> Matches(row, f)
      {
        SearchAlikeMatches(row, f, esc);
      }
    } else {
      SearchUnlikeDiffers(f, esc);
    }
  }

  lemma SearchAlikeMatches(row: Row, f: Filter, esc: bool)
    requires SearchesAlike(f, esc)
    ensures SqlMatches(row, f, esc) <==> Matches(row, f)
  {
    hide Contains, Lower, Like, Plain;
    if Plain(f.search, esc) {
      LikeIsContains(f.search, row.spec.kind, esc);
      LikeIsContains(f.search, row.spec.uuid, esc);
    }
  }

  lemma SearchUnlikeDiffers(f: Filter, esc: bool)
    requires !SearchesAlike(f, esc)
    ensures exists row :: !(SqlMatches(row, f, esc) <==> Matches(row, f))
  {
    hide Contains, Lower, Like, SqlMatches, Matches;
    assert f.search != "";
    var w := OnlyLike(f.search, esc);
    if f.kinds == [] {
      var row := Sample(f, w, w);
      assert SqlMatches(row, f, esc) && !Matches(row, f);
    } else {
      var k :| 0 <= k < |f.kinds| && !FoundEitherWay(f.search, f.kinds[k], esc);
      var kind := f.kinds[k];
      var row := Sample(f, kind, if Contains(Lower(kind), Lower(f.search)) then kind else w);
      assert SqlMatches(row, f, esc) != Matches(row, f);
    }
  }
}
