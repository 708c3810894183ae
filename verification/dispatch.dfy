/** Building job rows: dispatch options, single jobs and chains. */
module Dispatch {
  import opened Types
  import opened JobStore
  import opened StoreInvariant
  import opened Runs

  /** `WithTags` without arguments passes no list, which is not the same as an empty one. */
  datatype Opt =
    | OnQueue(name: string)
    | WithDelay(delay: int)
    | WithPriority(priority: int)
    | WithBatchID(batchId: string)
    | WithTags(tags: Option<seq<string>>)
    | WithMetadata(key: string, value: string)

  datatype Options = Options(
    queue: string,
    delay: int,
    priority: int,
    batchId: string,
    tags: Option<seq<string>>,
    metadata: map<string, string>)

  /** A job and the optional interfaces it implements; `payload` is absent when it cannot be marshalled. */
  datatype Job = Job(
    kind: string,
    payload: Option<string>,
    queue: Option<string>,
    maxAttempts: Option<int>,
    delay: Option<int>,
    tags: Option<seq<string>>,
    batchId: Option<string>,
    timeout: Option<int>)

  datatype Config = Config(queue: string, maxAttempts: int, timeout: int)

  /** The three readings of the clock that one row takes, and its uuid. */
  datatype Reading = Reading(now: Time, check: Time, created: Time, uuid: string)

  function Set(o: Options, opt: Opt): Options {
    match opt
    case OnQueue(name) => o.(queue := name)
    case WithDelay(d) => o.(delay := d)
    case WithPriority(p) => o.(priority := p)
    case WithBatchID(id) => o.(batchId := id)
    case WithTags(tags) => o.(tags := tags)
    case WithMetadata(k, v) => o.(metadata := o.metadata[k := v])
  }

  function SetAll(opts: seq<Opt>): Options {
    if opts == [] then Options("", 0, 0, "", None, map[]) else Set(SetAll(Front(opts)), Last(opts))
  }

  /** Of several options for one thing the last wins; metadata accumulates by key. */
  lemma {:induction false} LastOptionWins(opts: seq<Opt>, k: nat)
    requires k < |opts|
    ensures opts[k].OnQueue? && (forall j :: k < j < |opts| ==> !opts[j].OnQueue?) ==>
              SetAll(opts).queue == opts[k].name
    ensures opts[k].WithDelay? && (forall j :: k < j < |opts| ==> !opts[j].WithDelay?) ==>
              SetAll(opts).delay == opts[k].delay
    ensures opts[k].WithPriority? && (forall j :: k < j < |opts| ==> !opts[j].WithPriority?) ==>
              SetAll(opts).priority == opts[k].priority
    ensures opts[k].WithBatchID? && (forall j :: k < j < |opts| ==> !opts[j].WithBatchID?) ==>
              SetAll(opts).batchId == opts[k].batchId
    ensures opts[k].WithTags? && (forall j :: k < j < |opts| ==> !opts[j].WithTags?) ==>
              SetAll(opts).tags == opts[k].tags
    ensures opts[k].WithMetadata? &&
            (forall j :: k < j < |opts| && opts[j].WithMetadata? ==> opts[j].key != opts[k].key) ==>
              opts[k].key in SetAll(opts).metadata && SetAll(opts).metadata[opts[k].key] == opts[k].value
  {
    if k < |opts| - 1 {
      LastOptionWins(Front(opts), k);
    }
  }

  /** Without an option of a kind there is nothing to override the job and the configuration. */
  lemma {:induction false} NoOptionNoChange(opts: seq<Opt>)
    ensures (forall j :: 0 <= j < |opts| ==> !opts[j].OnQueue?) ==> SetAll(opts).queue == ""
    ensures (forall j :: 0 <= j < |opts| ==> !opts[j].WithDelay?) ==> SetAll(opts).delay == 0
    ensures (forall j :: 0 <= j < |opts| ==> !opts[j].WithPriority?) ==> SetAll(opts).priority == 0
    ensures (forall j :: 0 <= j < |opts| ==> !opts[j].WithBatchID?) ==> SetAll(opts).batchId == ""
    ensures (forall j :: 0 <= j < |opts| ==> !opts[j].WithTags?) ==> SetAll(opts).tags == None
  {
    if opts != [] {
      NoOptionNoChange(Front(opts));
      assert Last(opts) == opts[|opts| - 1];
    }
  }

  /** And metadata has no keys but those of the options. */
  lemma {:induction false} NoOtherMetadata(opts: seq<Opt>, key: string)
    requires key in SetAll(opts).metadata
    ensures exists j :: 0 <= j < |opts| && opts[j].WithMetadata? && opts[j].key == key
  {
    if opts != [] {
      var last := opts[|opts| - 1];
      if !(last.WithMetadata? && last.key == key) {
        NoOtherMetadata(Front(opts), key);
        var j :| 0 <= j < |Front(opts)| && Front(opts)[j].WithMetadata? && Front(opts)[j].key == key;
        assert opts[j] == Front(opts)[j];
      }
    }
  }

  /** What a dispatched row has to do with the job, the configuration and the options. */
  ghost predicate BuiltFrom(row: Row, job: Job, cfg: Config, o: Options, at: Reading) {
    && row.spec.uuid == at.uuid && row.spec.createdAt == at.created
    && row.spec.kind == job.kind && Some(row.spec.payload) == job.payload
    && row.spec.queue == (if o.queue != "" then o.queue else if job.queue.Some? then job.queue.value else cfg.queue)
    && row.spec.maxAttempts == (if job.maxAttempts.Some? then job.maxAttempts.value else cfg.maxAttempts)
    && row.spec.tags == (if o.tags.Some? then o.tags.value else if job.tags.Some? then job.tags.value else [])
    && row.spec.priority == o.priority
    && row.spec.batchId == (if o.batchId != "" then o.batchId else if job.batchId.Some? then job.batchId.value else "")
    && row.spec.timeout == (if job.timeout.Some? then job.timeout.value else cfg.timeout)
    && row.scheduledAt == at.now + (if o.delay > 0 then o.delay else if job.delay.Some? then job.delay.value else 0)
  }

  method BuildJobRow(job: Job, cfg: Config, opts: seq<Opt>, at: Reading) returns (row: Option<Row>)
    requires at.uuid != ""
    ensures row.None? <==> job.payload.None?
    ensures row.Some? ==> InitialRow(row.value) && BuiltFrom(row.value, job, cfg, SetAll(opts), at)
    ensures row.Some? ==> row.value.spec.metadata == SetAll(opts).metadata
    ensures row.Some? ==> row.value.state == if row.value.scheduledAt > at.check then Scheduled else Available
  {
    if job.payload.None? { return None; }
    var o := Options("", 0, 0, "", None, map[]);
    for i := 0 to |opts|
      invariant o == SetAll(opts[..i])
    {
      assert Front(opts[..i + 1]) == opts[..i];
      o := Set(o, opts[i]);
    }
    assert opts[..|opts|] == opts;
    var queue := cfg.queue;
    if o.queue != "" { queue := o.queue; }
    if job.queue.Some? && o.queue == "" { queue := job.queue.value; }
    var maxAttempts := cfg.maxAttempts;
    if job.maxAttempts.Some? { maxAttempts := job.maxAttempts.value; }
    var scheduledAt := at.now;
    if o.delay > 0 {
      scheduledAt := scheduledAt + o.delay;
    } else if job.delay.Some? {
      scheduledAt := scheduledAt + job.delay.value;
    }
    var tags := [];
    if o.tags.Some? {
      tags := o.tags.value;
    } else if job.tags.Some? {
      tags := job.tags.value;
    }
    var state := Available;
    if scheduledAt > at.check { state := Scheduled; }
    var batchId := "";
    if o.batchId != "" {
      batchId := o.batchId;
    } else if job.batchId.Some? {
      batchId := job.batchId.value;
    }
    var timeout := cfg.timeout;
    if job.timeout.Some? { timeout := job.timeout.value; }
    var payload := job.payload.value;
    var spec := Spec(
      at.uuid, queue, job.kind, payload, tags, o.metadata, o.priority, maxAttempts, batchId, timeout, at.created);
    row := Some(Row(0, spec, state, 0, [], None, [], None, scheduledAt, None, None, None, ""));
  }

  const PARENT := "parent_id"

  /** The links of a chain: every job but the first waits, and names its predecessor. */
  ghost predicate Linked(rows: seq<Row>) {
    && (rows != [] ==> !rows[0].state.Pending?)
    && (forall k :: 0 < k < |rows| ==> rows[k].state.Pending? && PARENT in rows[k].spec.metadata)
    && (forall k :: 0 < k < |rows| ==> rows[k].spec.metadata[PARENT] == rows[k - 1].spec.uuid)
  }

  /** A row has the given metadata, except for the key a chain uses. */
  ghost predicate Carries(row: Row, metadata: map<string, string>) {
    forall key :: key in metadata && key != PARENT ==>
        key in row.spec.metadata && row.spec.metadata[key] == metadata[key]
  }

  /** The rows of a chain; none at all if one job cannot be marshalled. */
  method Chain(jobs: seq<Job>, cfg: Config, opts: seq<Opt>, at: seq<Reading>) returns (rows: Option<seq<Row>>)
    requires |at| == |jobs| && forall k :: 0 <= k < |at| ==> at[k].uuid != ""
    ensures rows.None? <==> exists k :: 0 <= k < |jobs| && jobs[k].payload.None?
    ensures rows.Some? ==> |rows.value| == |jobs| && Linked(rows.value) && WellFormed(Enqueue(rows.value))
    ensures rows.Some? ==> forall k :: 0 <= k < |jobs| ==> BuiltFrom(rows.value[k], jobs[k], cfg, SetAll(opts), at[k])
    ensures rows.Some? ==> forall k :: 0 <= k < |jobs| ==> Carries(rows.value[k], SetAll(opts).metadata)
  {
    hide SetAll, BuiltFrom, Carries, Linked, InitialRow;
    var built: seq<Row> := [];
    LinkedNone();
    for i := 0 to |jobs|
      invariant |built| == i && Linked(built)
      invariant forall k :: 0 <= k < i ==> jobs[k].payload.Some? && InitialRow(built[k])
      invariant forall k :: 0 <= k < i ==> BuiltFrom(built[k], jobs[k], cfg, SetAll(opts), at[k])
      invariant forall k :: 0 <= k < i ==> Carries(built[k], SetAll(opts).metadata)
    {
      var row := BuildJobRow(jobs[i], cfg, opts, at[i]);
      if row.None? { return None; }
      var next := row.value;
      CarriesOwn(next);
      if i > 0 {
        next := Child(next, built[i - 1].spec.uuid);
        ChildIsBuilt(row.value, built[i - 1].spec.uuid, jobs[i], cfg, SetAll(opts), at[i]);
      }
      LinkedNext(built, next);
      built := built + [next];
    }
    rows := Some(built);
  }

  function Child(row: Row, parent: string): Row {
    row.(spec := row.spec.(metadata := row.spec.metadata[PARENT := parent]), state := Pending)
  }

  lemma ChildIsBuilt(row: Row, parent: string, job: Job, cfg: Config, o: Options, at: Reading)
    requires BuiltFrom(row, job, cfg, o, at)
    ensures BuiltFrom(Child(row, parent), job, cfg, o, at)
    ensures Carries(Child(row, parent), row.spec.metadata)
    ensures InitialRow(row) ==> InitialRow(Child(row, parent))
  {}

  lemma LinkedNone()
    ensures Linked([])
  {}

  lemma LinkedNext(rows: seq<Row>, next: Row)
    requires Linked(rows)
    requires next.state.Pending? <==> rows != []
    requires rows != [] ==> next.spec.metadata[PARENT := Last(rows).spec.uuid] == next.spec.metadata
    ensures Linked(rows + [next])
  {
    var all := rows + [next];
    forall k | 0 < k < |all|
      ensures all[k].state.Pending? && PARENT in all[k].spec.metadata
      ensures all[k].spec.metadata[PARENT] == all[k - 1].spec.uuid
    {
      if k == |rows| { assert PARENT in next.spec.metadata[PARENT := Last(rows).spec.uuid]; }
    }
  }

  lemma CarriesOwn(row: Row)
    ensures Carries(row, row.spec.metadata)
  {}

  /**
   A pending job is left exactly as it is until somebody cancels or prunes it: nothing promotes it when its parent
   ends.
   */
  lemma {:induction false} PendingWaits(ops: seq<Op>, id: JobId, j: nat, k: nat)
    requires WellFormedRun(ops) && j <= k <= |ops|
    requires Now(ops[..j], id).Some? && Now(ops[..j], id).value.state.Pending?
    requires forall m :: j <= m < k ==> EventAt(ops, id, m) !in {Withdrawn, Dropped}
    ensures Now(ops[..k], id) == Now(ops[..j], id)
    decreases k
  {
    hide Exec, EventOf, WellFormed;
    if j < k {
      PendingWaits(ops, id, j, k - 1);
      ChangeAt(ops, id, k - 1);
      assert ops[..k - 1 + 1] == ops[..k];
      assert EventAt(ops, id, k - 1) !in {Withdrawn, Dropped};
    }
  }
}
