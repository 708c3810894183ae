/** Listing jobs through the Redis driver: filter in place, sort in place, cut out a page. */
module Pagination {
  import opened Types
  import opened JobFilter
  import QueryBuilder

  // ---------------------------------------------------------------- the order

  datatype Field = Id | Uuid | Queue | Kind | StateText | Priority | Attempt | ScheduledAt | CreatedAt

  datatype Order = Order(field: Field, desc: bool)

  /** Unknown fields order by creation time, and anything but "asc" is descending. */
  function OrderOf(f: Filter): Order {
    Order(FieldNamed(f.orderBy), Lower(f.order) != "asc")
  }

  function FieldNamed(name: string): Field {
    match name
    case "id" => Id
    case "uuid" => Uuid
    case "queue" => Queue
    case "kind" => Kind
    case "state" => StateText
    case "priority" => Priority
    case "attempt" => Attempt
    case "scheduled_at" => ScheduledAt
    case _ => CreatedAt
  }

  function FieldName(field: Field): string {
    match field
    case Id => "id"
    case Uuid => "uuid"
    case Queue => "queue"
    case Kind => "kind"
    case StateText => "state"
    case Priority => "priority"
    case Attempt => "attempt"
    case ScheduledAt => "scheduled_at"
    case CreatedAt => "created_at"
  }

  /** The columns both drivers sort by, and those that only the SQL driver knows. */
  const SHARED: set<string> :=
    {"id", "uuid", "queue", "kind", "state", "priority", "attempt", "scheduled_at", "created_at"}
  const SQL_ONLY: set<string> := {"started_at", "completed_at", "finalized_at"}

  lemma NamesFit(name: string)
    ensures FieldName(FieldNamed(name)) == if name in SHARED then name else "created_at"
    ensures name in QueryBuilder.SORTABLE <==> name in SHARED || name in SQL_ONLY
    ensures "created_at" in SHARED && name in SHARED ==> name !in SQL_ONLY
  {}

  /**
   The drivers sort by the same column in the same direction exactly when the column is one that both know, or unknown
   to both and not asked for in ascending order: SQL ignores the direction that comes with an unknown column.
   */
  lemma OrdersAgreeIff(f: Filter)
    ensures QueryBuilder.SqlOrder(f) == QueryBuilder.OrderBy(FieldName(OrderOf(f).field), OrderOf(f).desc) <==>
            || f.orderBy in SHARED
            || (f.orderBy !in SQL_ONLY && Lower(f.order) != "asc")
  {
    hide FieldNamed, FieldName;
    NamesFit(f.orderBy);
  }

  function Compare(a: int, b: int): int {
    if a < b then -1 else if a > b then 1 else 0
  }

  /** Lexicographic comparison. */
  function CompareText(a: string, b: string): int {
    if a == "" then (if b == "" then 0 else -1)
    else if b == "" then 1
    else if a[0] != b[0] then Compare(a[0] as int, b[0] as int)
    else CompareText(a[1..], b[1..])
  }

  function CompareBy(field: Field, a: Row, b: Row): int {
    match field
    case Id => Compare(a.id, b.id)
    case Uuid => CompareText(a.spec.uuid, b.spec.uuid)
    case Queue => CompareText(a.spec.queue, b.spec.queue)
    case Kind => CompareText(a.spec.kind, b.spec.kind)
    case StateText => CompareText(StateName(a.state), StateName(b.state))
    case Priority => Compare(a.spec.priority, b.spec.priority)
    case Attempt => Compare(a.attempt, b.attempt)
    case ScheduledAt => Compare(a.scheduledAt, b.scheduledAt)
    case CreatedAt => Compare(a.spec.createdAt, b.spec.createdAt)
  }

  /** The less function handed to the sort: ties fall back to the id. */
  predicate Less(o: Order, a: Row, b: Row) {
    var byField := CompareBy(o.field, a, b);
    var result := if byField == 0 then Compare(a.id, b.id) else byField;
    if o.desc then result > 0 else result < 0
  }

  lemma {:induction false} TextOrder(a: string, b: string, c: string)
    ensures CompareText(b, a) == -CompareText(a, b)
    ensures CompareText(a, b) <= 0 && CompareText(b, c) <= 0 ==>
              CompareText(a, c) <= 0 && (CompareText(a, c) == 0 ==> CompareText(a, b) == 0 && CompareText(b, c) == 0)
  {
    if a != "" && b != "" {
      TextOrder(a[1..], b[1..], if c == "" then "" else c[1..]);
    }
  }

  lemma FieldOrder(field: Field, a: Row, b: Row, c: Row)
    ensures CompareBy(field, b, a) == -CompareBy(field, a, b)
    ensures CompareBy(field, a, b) <= 0 && CompareBy(field, b, c) <= 0 ==>
              && CompareBy(field, a, c) <= 0
              && (CompareBy(field, a, c) == 0 ==> CompareBy(field, a, b) == 0 && CompareBy(field, b, c) == 0)
  {
    hide CompareText, StateName;
    match field
    case Uuid => TextOrder(a.spec.uuid, b.spec.uuid, c.spec.uuid);
    case Queue => TextOrder(a.spec.queue, b.spec.queue, c.spec.queue);
    case Kind => TextOrder(a.spec.kind, b.spec.kind, c.spec.kind);
    case StateText => TextOrder(StateName(a.state), StateName(b.state), StateName(c.state));
    case _ =>
  }

  /** The less function is a strict total order on rows with different ids. */
  lemma LessIsTotal(o: Order, a: Row, b: Row, c: Row)
    ensures !(Less(o, a, b) && Less(o, b, a))
    ensures a.id != b.id ==> Less(o, a, b) || Less(o, b, a)
    ensures Less(o, a, b) && Less(o, b, c) ==> Less(o, a, c)
  {
    hide CompareBy;
    FieldOrder(o.field, a, b, c);
    FieldOrder(o.field, c, b, a);
    FieldOrder(o.field, a, c, b);
  }

  // ---------------------------------------------------------------- sorting

  ghost predicate DistinctIds(rows: seq<Row>) {
    forall i, j :: 0 <= i < j < |rows| ==> rows[i].id != rows[j].id
  }

  ghost predicate Ordered(o: Order, rows: seq<Row>) {
    forall i, j :: 0 <= i < j < |rows| ==> Less(o, rows[i], rows[j])
  }

  /** `x` put behind the last row that it is not less than. */
  function Placed(o: Order, rows: seq<Row>, x: Row): seq<Row> {
    if rows == [] || !Less(o, x, Last(rows)) then rows + [x] else Placed(o, Front(rows), x) + [Last(rows)]
  }

  function Sorted(o: Order, rows: seq<Row>): seq<Row> {
    if rows == [] then [] else Placed(o, Sorted(o, Front(rows)), Last(rows))
  }

  lemma {:induction false} PlacedRows(o: Order, rows: seq<Row>, x: Row)
    ensures multiset(Placed(o, rows, x)) == multiset(rows) + multiset{x}
  {
    if rows != [] {
      assert rows == Front(rows) + [Last(rows)];
      PlacedRows(o, Front(rows), x);
    }
  }

  /** Sorting loses nothing and repeats nothing. */
  lemma {:induction false} SortedRows(o: Order, rows: seq<Row>)
    ensures multiset(Sorted(o, rows)) == multiset(rows)
  {
    if rows != [] {
      assert rows == Front(rows) + [Last(rows)];
      SortedRows(o, Front(rows));
      PlacedRows(o, Sorted(o, Front(rows)), Last(rows));
    }
  }

  lemma SameMembers(a: seq<Row>, b: seq<Row>)
    requires multiset(a) == multiset(b)
    ensures |a| == |b| && Elements(a) == Elements(b)
  {
    assert |multiset(a)| == |a| && |multiset(b)| == |b|;
    forall x
      ensures x in a <==> x in b
    {
      assert x in multiset(a) <==> x in multiset(b);
    }
  }

  lemma {:induction false} PlacedOrdered(o: Order, rows: seq<Row>, x: Row)
    requires Ordered(o, rows)
    requires forall i :: 0 <= i < |rows| ==> rows[i].id != x.id
    ensures Ordered(o, Placed(o, rows, x))
  {
    hide Less;
    if rows != [] {
      var front, last := Front(rows), Last(rows);
      LessIsTotal(o, x, last, x);
      if Less(o, x, last) {
        PlacedOrdered(o, front, x);
        PlacedRows(o, front, x);
        var placed := Placed(o, front, x);
        forall i | 0 <= i < |placed|
          ensures Less(o, placed[i], last)
        {
          assert placed[i] in multiset(front) + multiset{x};
        }
      } else {
        forall i | 0 <= i < |rows|
          ensures Less(o, rows[i], x)
        {
          LessIsTotal(o, rows[i], last, x);
        }
      }
    }
  }

  /** Sorting orders the rows. */
  lemma {:induction false} SortedOrdered(o: Order, rows: seq<Row>)
    requires DistinctIds(rows)
    ensures Ordered(o, Sorted(o, rows))
  {
    hide Less, Placed;
    if rows != [] {
      var sorted := Sorted(o, Front(rows));
      SortedOrdered(o, Front(rows));
      SortedRows(o, Front(rows));
      SameMembers(sorted, Front(rows));
      forall i | 0 <= i < |sorted|
        ensures sorted[i].id != Last(rows).id
      {
        assert sorted[i] in Elements(Front(rows));
      }
      PlacedOrdered(o, sorted, Last(rows));
    }
  }

  lemma LastIsShared(o: Order, a: seq<Row>, b: seq<Row>)
    requires a != [] && Ordered(o, a) && Ordered(o, b) && |a| == |b| && Elements(a) == Elements(b)
    ensures Last(a) == Last(b)
  {
    hide Less;
    var x, y := Last(a), Last(b);
    assert y in Elements(b) && x in Elements(a);
    LessIsTotal(o, x, y, x);
  }

  lemma FrontOrdered(o: Order, a: seq<Row>)
    requires a != [] && Ordered(o, a)
    ensures Ordered(o, Front(a)) && multiset(Front(a)) == multiset(a) - multiset{Last(a)}
    ensures |Front(a)| < |a| && a == Front(a) + [Last(a)]
  {
    hide Less;
    assert a == Front(a) + [Last(a)];
  }

  /** There is one ordered arrangement of a set of rows, so any correct sort gives the same list. */
  lemma {:induction false} OrderedIsUnique(o: Order, a: seq<Row>, b: seq<Row>)
    requires Ordered(o, a) && Ordered(o, b) && multiset(a) == multiset(b)
    ensures a == b
    decreases |a|
  {
    hide Ordered, Elements, Front, Last;
    SameMembers(a, b);
    if a != [] {
      LastIsShared(o, a, b);
      FrontOrdered(o, a);
      FrontOrdered(o, b);
      OrderedIsUnique(o, Front(a), Front(b));
    }
  }

  // ---------------------------------------------------------------- filtering

  function Kept(rows: seq<Row>, f: Filter): seq<Row> {
    if rows == [] then []
    else if Matches(Last(rows), f) then Kept(Front(rows), f) + [Last(rows)]
    else Kept(Front(rows), f)
  }

  /** Filtering keeps each matching row as often as it was there, and nothing else. */
  lemma {:induction false} KeptRows(rows: seq<Row>, f: Filter, x: Row)
    ensures multiset(Kept(rows, f))[x] == if Matches(x, f) then multiset(rows)[x] else 0
  {
    hide Matches;
    if rows != [] {
      assert rows == Front(rows) + [Last(rows)];
      KeptRows(Front(rows), f, x);
    }
  }

  lemma {:induction false} KeptDistinct(rows: seq<Row>, f: Filter)
    requires DistinctIds(rows)
    ensures DistinctIds(Kept(rows, f))
  {
    hide Matches;
    if rows != [] {
      var kept := Kept(Front(rows), f);
      KeptDistinct(Front(rows), f);
      forall i | 0 <= i < |kept|
        ensures kept[i].id != Last(rows).id
      {
        KeptRows(Front(rows), f, kept[i]);
        assert kept[i] in multiset(kept);
        assert kept[i] in Front(rows);
      }
    }
  }

  lemma KeptAlike(a: seq<Row>, b: seq<Row>, f: Filter)
    requires multiset(a) == multiset(b)
    ensures multiset(Kept(a, f)) == multiset(Kept(b, f))
  {
    hide Matches, Kept;
    forall x
      ensures multiset(Kept(a, f))[x] == multiset(Kept(b, f))[x]
    {
      KeptRows(a, f, x);
      KeptRows(b, f, x);
    }
  }

  // ---------------------------------------------------------------- the driver's code

  /** The filter loop, which writes the rows it keeps over the front of the list it reads. */
  method FilterInPlace(jobs: array<Row>, f: Filter) returns (n: nat)
    modifies jobs
    ensures n <= jobs.Length && jobs[..n] == Kept(old(jobs[..]), f)
  {
    hide Matches;
    n := 0;
    for i := 0 to jobs.Length
      invariant n <= i
      invariant jobs[..n] == Kept(old(jobs[..])[..i], f)
      invariant jobs[i..] == old(jobs[..])[i..]
    {
      var job := jobs[i];
      assert job == old(jobs[..])[i..][0] == old(jobs[..])[i];
      KeptStep(old(jobs[..]), f, i);
      if Matches(job, f) {
        assert jobs[i + 1..] == old(jobs[..])[i..][1..];
        jobs[n] := job;
        n := n + 1;
        assert jobs[..n] == jobs[..n - 1] + [job];
      }
      assert jobs[i + 1..] == old(jobs[..])[i..][1..];
    }
    assert old(jobs[..])[..jobs.Length] == old(jobs[..]);
  }

  lemma KeptStep(rows: seq<Row>, f: Filter, i: nat)
    requires i < |rows|
    ensures Kept(rows[..i + 1], f) == Kept(rows[..i], f) + if Matches(rows[i], f) then [rows[i]] else []
  {
    assert Front(rows[..i + 1]) == rows[..i];
  }

  /** The stable in-place sort of the first `n` rows, by insertion. */
  method SortInPlace(jobs: array<Row>, n: nat, o: Order)
    requires n <= jobs.Length
    modifies jobs
    ensures jobs[..n] == Sorted(o, old(jobs[..n]))
    ensures jobs[n..] == old(jobs[n..])
  {
    hide Less, Placed, Sorted;
    ghost var was := jobs[..];
    SortedNone(o, was);
    for i := 0 to n
      invariant jobs[..i] == Sorted(o, was[..i])
      invariant jobs[i..] == was[i..]
    {
      assert jobs[i] == jobs[i..][0] == was[i];
      assert jobs[i + 1..] == was[i..][1..];
      SortedStep(o, was, i);
      SiftDown(jobs, i, o);
    }
    assert was[..n] == old(jobs[..n]);
  }

  /** One round of the insertion: the row at `i` moves down past the rows it is less than. */
  method SiftDown(jobs: array<Row>, i: nat, o: Order)
    requires i < jobs.Length
    modifies jobs
    ensures jobs[..i + 1] == Placed(o, old(jobs[..i]), old(jobs[i]))
    ensures jobs[i + 1..] == old(jobs[i + 1..])
  {
    hide Less, Placed, Parted;
    ghost var s, x := jobs[..i], jobs[i];
    var j := i;
    PartedStart(s, x);
    assert jobs[..i + 1] == s + [x];
    while j > 0 && Less(o, jobs[j], jobs[j - 1])
      invariant j <= i
      invariant jobs[..i + 1] == Parted(s, x, j)
      invariant Placed(o, s, x) == Placed(o, s[..j], x) + s[j..]
      invariant jobs[i + 1..] == old(jobs[i + 1..])
    {
      PartedSwap(s, x, j);
      assert jobs[j] == jobs[..i + 1][j] && jobs[j - 1] == jobs[..i + 1][j - 1];
      PlacedStep(o, s, x, j);
      jobs[j], jobs[j - 1] := jobs[j - 1], jobs[j];
      j := j - 1;
    }
    if j > 0 {
      PartedSwap(s, x, j);
      assert jobs[j] == jobs[..i + 1][j] && jobs[j - 1] == jobs[..i + 1][j - 1];
    }
    PlacedStop(o, s, x, j);
  }

  /** `x` standing in front of the rows from `j` on. */
  function Parted(s: seq<Row>, x: Row, j: nat): seq<Row>
    requires j <= |s|
  {
    s[..j] + [x] + s[j..]
  }

  lemma PartedStart(s: seq<Row>, x: Row)
    ensures Parted(s, x, |s|) == s + [x] && s[..|s|] == s && s[|s|..] == []
  {}

  lemma PartedSwap(s: seq<Row>, x: Row, j: nat)
    requires 0 < j <= |s|
    ensures |Parted(s, x, j)| == |s| + 1
    ensures Parted(s, x, j)[j] == x && Parted(s, x, j)[j - 1] == s[j - 1]
    ensures Parted(s, x, j - 1) == Parted(s, x, j)[j := s[j - 1]][j - 1 := x]
  {}

  lemma SortedNone(o: Order, rows: seq<Row>)
    ensures Sorted(o, rows[..0]) == []
  {}

  lemma SortedStep(o: Order, rows: seq<Row>, i: nat)
    requires i < |rows|
    ensures Sorted(o, rows[..i + 1]) == Placed(o, Sorted(o, rows[..i]), rows[i])
  {
    assert Front(rows[..i + 1]) == rows[..i];
  }

  lemma PlacedStep(o: Order, s: seq<Row>, x: Row, j: nat)
    requires 0 < j <= |s| && Less(o, x, s[j - 1])
    ensures Placed(o, s[..j], x) + s[j..] == Placed(o, s[..j - 1], x) + s[j - 1..]
  {
    hide Less;
    assert Front(s[..j]) == s[..j - 1];
    assert s[j - 1..] == [s[j - 1]] + s[j..];
  }

  lemma PlacedStop(o: Order, s: seq<Row>, x: Row, j: nat)
    requires j <= |s| && (j > 0 ==> !Less(o, x, s[j - 1]))
    ensures Placed(o, s[..j], x) + s[j..] == Parted(s, x, j)
  {}

  const MAX_INT := 0x7fff_ffff_ffff_ffff

  function Listing(rows: seq<Row>, f: Filter): seq<Row> {
    Sorted(OrderOf(f), Kept(rows, f))
  }

  function Page<T>(list: seq<T>, offset: nat, limit: nat): seq<T> {
    if offset >= |list| then []
    else if offset + limit > |list| then list[offset..]
    else list[offset..offset + limit]
  }

  /**
   A job query. `None` stands for the slice expression that panics when `offset + limit` wraps around to a negative
   end.
   */
  method QueryJobs(jobs: array<Row>, f: Filter) returns (page: Option<seq<Row>>, total: nat)
    requires jobs.Length <= MAX_INT && f.limit <= MAX_INT && f.offset <= MAX_INT
    modifies jobs
    ensures total == |Kept(old(jobs[..]), f)|
    ensures
      var limit, offset := if f.limit <= 0 then 50 else f.limit, if f.offset < 0 then 0 else f.offset;
      && (page.None? <==> offset < total && offset + limit > MAX_INT)
      && (page.Some? ==> page.value == Page(Listing(old(jobs[..]), f), offset, limit))
  {
    hide Kept, Sorted, OrderOf, Matches, Page;
    total := FilterInPlace(jobs, f);
    ghost var kept := jobs[..total];
    SortInPlace(jobs, total, OrderOf(f));
    SortedRows(OrderOf(f), kept);
    SameMembers(jobs[..total], kept);
    page := CutPage(jobs[..total], f);
  }

  method CutPage(filtered: seq<Row>, f: Filter) returns (page: Option<seq<Row>>)
    requires |filtered| <= MAX_INT && f.limit <= MAX_INT && f.offset <= MAX_INT
    ensures
      var limit, offset := if f.limit <= 0 then 50 else f.limit, if f.offset < 0 then 0 else f.offset;
      && (page.None? <==> offset < |filtered| && offset + limit > MAX_INT)
      && (page.Some? ==> page.value == Page(filtered, offset, limit))
  {
    var limit, offset := f.limit, f.offset;
    if limit <= 0 { limit := 50; }
    if offset < 0 { offset := 0; }
    if offset >= |filtered| { return Some([]); }
    var end := offset + limit;
    if end > MAX_INT { end := end - 2 * (MAX_INT + 1); }
    if end > |filtered| { end := |filtered|; }
    if end < offset { return None; }
    page := Some(filtered[offset..end]);
  }

  // ---------------------------------------------------------------- hash order and pages

  /** `rows` lists the values of the jobs hash, each once, in some order. */
  ghost predicate Enumerates(rows: seq<Row>, jobs: map<JobId, Row>) {
    && DistinctIds(rows)
    && forall r :: r in rows <==> r.id in jobs && jobs[r.id] == r
  }

  /** Every jobs hash that keeps rows under their own ids can be read. */
  lemma {:induction false} EnumerationExists(jobs: map<JobId, Row>) returns (rows: seq<Row>)
    requires forall i :: i in jobs ==> jobs[i].id == i
    ensures Enumerates(rows, jobs)
    decreases |jobs|
  {
    if jobs == map[] {
      rows := [];
    } else {
      var i :| i in jobs;
      var rest := EnumerationExists(jobs - {i});
      rows := rest + [jobs[i]];
    }
  }

  lemma {:induction false} DistinctOnce(rows: seq<Row>, x: Row)
    requires DistinctIds(rows)
    ensures multiset(rows)[x] == if x in rows then 1 else 0
  {
    if rows != [] {
      assert rows == Front(rows) + [Last(rows)];
      DistinctOnce(Front(rows), x);
    }
  }

  /** Two readings of the same hash contain the same rows. */
  lemma EnumerationsAlike(a: seq<Row>, b: seq<Row>, jobs: map<JobId, Row>)
    requires Enumerates(a, jobs) && Enumerates(b, jobs)
    ensures multiset(a) == multiset(b)
  {
    forall x
      ensures multiset(a)[x] == multiset(b)[x]
    {
      DistinctOnce(a, x);
      DistinctOnce(b, x);
      assert x in a <==> x in b;
    }
  }

  /** The order in which Redis returns the hash does not show: the listing and the total are the same. */
  lemma HashOrderDoesNotShow(a: seq<Row>, b: seq<Row>, jobs: map<JobId, Row>, f: Filter)
    requires Enumerates(a, jobs) && Enumerates(b, jobs)
    ensures Listing(a, f) == Listing(b, f)
    ensures |Kept(a, f)| == |Kept(b, f)| == |Listing(a, f)|
  {
    hide Kept, Sorted, Matches, OrderOf;
    var o := OrderOf(f);
    EnumerationsAlike(a, b, jobs);
    KeptAlike(a, b, f);
    KeptDistinct(a, f);
    KeptDistinct(b, f);
    SortedRows(o, Kept(a, f));
    SortedRows(o, Kept(b, f));
    SortedOrdered(o, Kept(a, f));
    SortedOrdered(o, Kept(b, f));
    OrderedIsUnique(o, Listing(a, f), Listing(b, f));
    SameMembers(Kept(a, f), Kept(b, f));
    SameMembers(Listing(a, f), Kept(a, f));
  }

  /** The listing is what a reader expects: every matching job of the hash, once, in order. */
  lemma ListingIsComplete(rows: seq<Row>, jobs: map<JobId, Row>, f: Filter)
    requires Enumerates(rows, jobs)
    ensures Ordered(OrderOf(f), Listing(rows, f))
    ensures forall r ::
              multiset(Listing(rows, f))[r] == if r.id in jobs && jobs[r.id] == r && Matches(r, f) then 1 else 0
  {
    hide Kept, Sorted, Matches, OrderOf;
    var o := OrderOf(f);
    KeptDistinct(rows, f);
    SortedRows(o, Kept(rows, f));
    SortedOrdered(o, Kept(rows, f));
    forall r
      ensures multiset(Listing(rows, f))[r] == if r.id in jobs && jobs[r.id] == r && Matches(r, f) then 1 else 0
    {
      KeptRows(rows, f, r);
      DistinctOnce(rows, r);
      assert r in rows <==> r.id in jobs && jobs[r.id] == r;
    }
  }

  /** The pages at offsets 0, L, 2L, ..., each read from the hash in whatever order it came back that time. */
  function Pages(readings: seq<seq<Row>>, f: Filter, limit: nat): seq<Row> {
    if readings == [] then []
    else Pages(Front(readings), f, limit) + Page(Listing(Last(readings), f), limit * (|readings| - 1), limit)
  }

  lemma {:induction false} PagesArePrefix(readings: seq<seq<Row>>, rows: seq<Row>, jobs: map<JobId, Row>, f: Filter,
      limit: nat)
    requires Enumerates(rows, jobs) && forall k :: 0 <= k < |readings| ==> Enumerates(readings[k], jobs)
    ensures Pages(readings, f, limit) == Page(Listing(rows, f), 0, limit * |readings|)
  {
    hide Enumerates, Listing, Page;
    if readings == [] {
      PageOfNothing(Listing(rows, f));
    } else {
      var n := |readings| - 1;
      PagesArePrefix(Front(readings), rows, jobs, f, limit);
      HashOrderDoesNotShow(Last(readings), rows, jobs, f);
      PageExtends(Listing(rows, f), limit * n, limit);
      OneMoreTime(limit, n);
    }
  }

  lemma PageOfNothing<T>(list: seq<T>)
    ensures Page(list, 0, 0) == []
  {}

  lemma OneMoreTime(a: nat, n: nat)
    ensures a * (n + 1) == a * n + a
  {}

  lemma PageExtends<T>(list: seq<T>, n: nat, limit: nat)
    ensures Page(list, 0, n) + Page(list, n, limit) == Page(list, 0, n + limit)
  {}

  /** Reading pages until they run out gives the whole listing: nothing is lost and nothing comes twice. */
  lemma PagesTile(readings: seq<seq<Row>>, rows: seq<Row>, jobs: map<JobId, Row>, f: Filter, limit: nat)
    requires Enumerates(rows, jobs) && forall k :: 0 <= k < |readings| ==> Enumerates(readings[k], jobs)
    requires limit * |readings| >= |Kept(rows, f)|
    ensures Pages(readings, f, limit) == Listing(rows, f)
  {
    hide Enumerates, Listing, Kept;
    HashOrderDoesNotShow(rows, rows, jobs, f);
    PagesArePrefix(readings, rows, jobs, f, limit);
  }

  // ---------------------------------------------------------------- the order, column by column

  /** `a` comes before `b` in a dictionary: it is a proper beginning of `b`, or smaller where they first differ. */
  ghost predicate TextBefore(a: string, b: string) {
    exists k :: 0 <= k <= |a| && FirstDifference(a, b, k)
  }

  ghost predicate FirstDifference(a: string, b: string, k: nat)
    requires k <= |a|
  {
    k < |b| && a[..k] == b[..k] && (k == |a| || a[k] < b[k])
  }

  lemma {:induction false} CompareIsDictionary(a: string, b: string)
    ensures CompareText(a, b) < 0 <==> TextBefore(a, b)
    ensures CompareText(a, b) == 0 <==> a == b
    ensures CompareText(a, b) > 0 <==> TextBefore(b, a)
  {
    DictionaryEmpty(a, b);
    if a != "" && b != "" {
      if a[0] == b[0] {
        CompareIsDictionary(a[1..], b[1..]);
        DictionaryTail(a, b);
        DictionaryTail(b, a);
        assert a == [a[0]] + a[1..] && b == [b[0]] + b[1..];
      } else {
        DictionaryHead(a, b);
        DictionaryHead(b, a);
      }
    }
  }

  lemma DictionaryEmpty(a: string, b: string)
    ensures a == "" ==> !TextBefore(b, a) && (TextBefore(a, b) <==> b != "")
    ensures b == "" ==> !TextBefore(a, b) && (TextBefore(b, a) <==> a != "")
  {
    assert a == "" && b != "" ==> FirstDifference(a, b, 0);
    assert b == "" && a != "" ==> FirstDifference(b, a, 0);
  }

  lemma DictionaryHead(a: string, b: string)
    requires a != "" && b != "" && a[0] != b[0]
    ensures TextBefore(a, b) <==> a[0] < b[0]
  {
    if a[0] < b[0] { assert FirstDifference(a, b, 0); }
    forall k | 0 <= k <= |a| && FirstDifference(a, b, k)
      ensures k == 0
    {
      SharedHead(a, b, k);
    }
  }

  lemma SharedHead(a: string, b: string, k: nat)
    requires k <= |a| && k <= |b| && a[..k] == b[..k]
    ensures k > 0 ==> a[0] == b[0]
  {
    if k > 0 { assert a[..k][0] == b[..k][0]; }
  }

  lemma DictionaryTail(a: string, b: string)
    requires a != "" && b != "" && a[0] == b[0]
    ensures TextBefore(a, b) <==> TextBefore(a[1..], b[1..])
  {
    var s, t := a[1..], b[1..];
    if k :| 0 <= k <= |a| && FirstDifference(a, b, k) {
      assert k > 0;
      assert s[..k - 1] == a[..k][1..] && t[..k - 1] == b[..k][1..];
      assert FirstDifference(s, t, k - 1);
    }
    if k :| 0 <= k <= |s| && FirstDifference(s, t, k) {
      assert a[..k + 1] == [a[0]] + s[..k] && b[..k + 1] == [b[0]] + t[..k];
      assert FirstDifference(a, b, k + 1);
    }
  }

  /** In the wanted direction, with the id deciding between rows that are neither less nor greater. */
  ghost predicate InOrder(asc: bool, a: Row, b: Row, less: bool, greater: bool) {
    if asc then less || (!greater && a.id < b.id) else greater || (!less && a.id > b.id)
  }

  /**
   Of two rows of a listing the earlier one has the smaller value of the sort column, or for any order but "asc" the
   greater one, and with equal values the smaller or greater id. Unknown columns sort by creation time.
   */
  lemma ListingOrder(rows: seq<Row>, jobs: map<JobId, Row>, f: Filter, i: nat, j: nat)
    requires Enumerates(rows, jobs) && i < j < |Listing(rows, f)|
    ensures
      var a, b, asc := Listing(rows, f)[i], Listing(rows, f)[j], Lower(f.order) == "asc";
      match f.orderBy
      case "id" => InOrder(asc, a, b, a.id < b.id, a.id > b.id)
      case "uuid" => InOrder(asc, a, b, TextBefore(a.spec.uuid, b.spec.uuid), TextBefore(b.spec.uuid, a.spec.uuid))
      case "queue" => InOrder(asc, a, b, TextBefore(a.spec.queue, b.spec.queue), TextBefore(b.spec.queue, a.spec.queue))
      case "kind" => InOrder(asc, a, b, TextBefore(a.spec.kind, b.spec.kind), TextBefore(b.spec.kind, a.spec.kind))
      case "state" =>
        var x, y := StateName(a.state), StateName(b.state);
        InOrder(asc, a, b, TextBefore(x, y), TextBefore(y, x))
      case "priority" => InOrder(asc, a, b, a.spec.priority < b.spec.priority, a.spec.priority > b.spec.priority)
      case "attempt" => InOrder(asc, a, b, a.attempt < b.attempt, a.attempt > b.attempt)
      case "scheduled_at" => InOrder(asc, a, b, a.scheduledAt < b.scheduledAt, a.scheduledAt > b.scheduledAt)
      case _ => InOrder(asc, a, b, a.spec.createdAt < b.spec.createdAt, a.spec.createdAt > b.spec.createdAt)
  {
    hide Enumerates, Listing, StateName, CompareText, TextBefore, Lower, Ordered;
    var a, b := Listing(rows, f)[i], Listing(rows, f)[j];
    ListingIsComplete(rows, jobs, f);
    OrderedAt(OrderOf(f), Listing(rows, f), i, j);
    CompareIsDictionary(a.spec.uuid, b.spec.uuid);
    CompareIsDictionary(a.spec.queue, b.spec.queue);
    CompareIsDictionary(a.spec.kind, b.spec.kind);
    CompareIsDictionary(StateName(a.state), StateName(b.state));
  }

  lemma OrderedAt(o: Order, rows: seq<Row>, i: nat, j: nat)
    requires Ordered(o, rows) && i < j < |rows|
    ensures Less(o, rows[i], rows[j])
  {
    hide Less;
  }
}
