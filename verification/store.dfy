/**
 The Redis job store as a value: the `jobs` and `job:uuids` hashes, the `job:ids`, `job:created` and
 `job:running` sorted sets, the `job:due:<queue>` sorted sets (one map keyed by queue and id) and the
 `job:id` counter. Every Lua script is one function from store to store; none of them needs an invariant.
 */
module JobStore {
  import opened Types
  import opened RowSteps
  import opened Selection

  datatype DueKey = DueKey(queue: string, id: JobId)

  datatype Store = Store(
    nextId: nat,
    uuids: map<string, JobId>,
    jobs: map<JobId, Row>,
    ids: map<JobId, int>,
    created: map<JobId, Time>,
    running: map<JobId, Time>,
    due: map<DueKey, Time>)

  const EMPTY := Store(0, map[], map[], map[], map[], map[], map[])

  datatype Refusal = DuplicateUuid | NotFound | InvalidTransition

  datatype Reply =
    | Inserted(ids: seq<JobId>)
    | Claimed(rows: seq<Row>)
    | Counted(n: nat)
    | Done
    | Refused(why: Refusal)

  /** One call of a driver. `now` is the time the driver reads before it runs the script. */
  datatype Op =
    | Enqueue(rows: seq<Row>)
    | Claim(queue: string, node: string, max: int, now: Time)
    | Complete(id: JobId, output: string, now: Time)
    | Fail(id: JobId, message: string, now: Time)
    | ScheduleRetry(id: JobId, message: string, at: Time, now: Time)
    | Retry(id: JobId, now: Time)
    | RetryBatch(ids: seq<JobId>, now: Time)
    | Cancel(id: JobId, now: Time)
    | CancelBatch(ids: seq<JobId>, now: Time)
    | RequeueStale(timeout: int, now: Time)
    | Prune(before: Time, states: set<State>)

  // ---------------------------------------------------------------- helpers

  /** The due-index entries of the given jobs. */
  function DueKeys(jobs: map<JobId, Row>, ids: set<JobId>): (keys: set<DueKey>)
    ensures forall k :: k in keys <==> k.id in ids && k.id in jobs && jobs[k.id].spec.queue == k.queue
  {
    set i | i in ids && i in jobs :: DueKey(jobs[i].spec.queue, i)
  }

  function UuidsOf(jobs: map<JobId, Row>, ids: set<JobId>): set<string> {
    set i | i in ids && i in jobs :: jobs[i].spec.uuid
  }

  /** A row step that a script applies to several rows. */
  datatype Edit =
    | ClaimEdit(node: string, now: Time)
    | RetryEdit(now: Time)
    | CancelEdit(now: Time)
    | RequeueEdit(now: Time)
  {
    function Of(r: Row): Row {
      match this
      case ClaimEdit(node, now) => ClaimRow(r, node, now)
      case RetryEdit(now) => RetryRow(r, now)
      case CancelEdit(now) => CancelRow(r, now)
      case RequeueEdit(now) => RequeueRow(r, now)
    }
  }

  function Rewrite(jobs: map<JobId, Row>, ids: set<JobId>, edit: Edit): map<JobId, Row> {
    map i | i in jobs :: if i in ids then edit.Of(jobs[i]) else jobs[i]
  }

  /** `ZADD` of every key with one score. */
  function AddAll<K>(z: map<K, Time>, keys: set<K>, score: Time): map<K, Time> {
    z + (map k | k in keys :: score)
  }

  // ---------------------------------------------------------------- enqueue

  predicate Clashes(s: Store, rows: seq<Row>) {
    exists k :: 0 <= k < |rows| && ClashAt(s, rows, k)
  }

  predicate ClashAt(s: Store, rows: seq<Row>, k: nat)
    requires k < |rows|
  {
    || rows[k].spec.uuid == ""
    || rows[k].spec.uuid in s.uuids
    || exists j :: 0 <= j < k && rows[j].spec.uuid == rows[k].spec.uuid
  }

  function Insert(s: Store, row: Row): Store {
    var id := s.nextId + 1;
    Store(
      id,
      s.uuids[row.spec.uuid := id],
      s.jobs[id := row.(id := id)],
      s.ids[id := id],
      s.created[id := row.spec.createdAt],
      s.running,
      if row.state.Claimable() then s.due[DueKey(row.spec.queue, id) := row.scheduledAt] else s.due)
  }

  function InsertAll(s: Store, rows: seq<Row>): Store {
    if rows == [] then s else Insert(InsertAll(s, Front(rows)), Last(rows))
  }

  function FreshIds(s: Store, n: nat): seq<JobId> {
    seq(n, (k: nat) => s.nextId + 1 + k)
  }

  function EnqueueStore(s: Store, rows: seq<Row>): Store {
    if Clashes(s, rows) then s else InsertAll(s, rows)
  }

  // ---------------------------------------------------------------- claim

  /** The due entries of `q` that a claim at `now` looks at and finds ready to run. */
  function Candidates(s: Store, q: string, now: Time): (ranks: map<JobId, Rank>)
    ensures WellRanked(ranks) && ranks.Keys <= s.jobs.Keys
  {
    map i | i in s.jobs && DueKey(q, i) in s.due && s.due[DueKey(q, i)] <= now && Ready(s.jobs[i])
      :: Rank(s.jobs[i].spec.priority, s.due[DueKey(q, i)], i)
  }

  ghost function Picked(s: Store, q: string, max: int, now: Time): (picked: seq<JobId>)
    ensures forall i :: i in picked ==> i in Candidates(s, q, now)
    ensures Distinct(picked)
  {
    if max <= 0 then []
    else
      FirstIsDistinct(Candidates(s, q, now), max);
      First(Candidates(s, q, now), max)
  }

  /** An entry a claim leaves in the due index: not looked at, or ready but not picked. */
  ghost predicate KeepsDue(s: Store, q: string, picked: set<JobId>, now: Time, k: DueKey)
    requires k in s.due
  {
    k.queue == q && s.due[k] <= now ==> k.id in Candidates(s, q, now) && k.id !in picked
  }

  ghost function ClaimStore(s: Store, q: string, node: string, max: int, now: Time): Store {
    if max <= 0 then s else
    var picked := Elements(Picked(s, q, max, now));
    s.(jobs := Rewrite(s.jobs, picked, ClaimEdit(node, now)),
       running := AddAll(s.running, picked, now),
       due := map k | k in s.due && KeepsDue(s, q, picked, now, k) :: s.due[k])
  }

  ghost function ClaimedRows(s: Store, q: string, node: string, max: int, now: Time): seq<Row> {
    var picked := Picked(s, q, max, now);
    seq(|picked|, k requires 0 <= k < |picked| => ClaimRow(s.jobs[picked[k]], node, now))
  }

  // ---------------------------------------------------------------- finish

  function CompleteStore(s: Store, id: JobId, output: string, now: Time): Store {
    if id in s.jobs && s.jobs[id].state.Running? then
      s.(jobs := s.jobs[id := CompleteRow(s.jobs[id], output, now)], running := s.running - {id})
    else s
  }

  function FailStore(s: Store, id: JobId, message: string, now: Time): Store {
    if id in s.jobs && CanFail(s.jobs[id]) then
      s.(jobs := s.jobs[id := FailRow(s.jobs[id], message, now)],
         running := s.running - {id},
         due := s.due - {DueKey(s.jobs[id].spec.queue, id)})
    else s
  }

  function ScheduleRetryStore(s: Store, id: JobId, message: string, at: Time, now: Time): Store {
    if id in s.jobs && s.jobs[id].state.Running? then
      s.(jobs := s.jobs[id := ScheduleRetryRow(s.jobs[id], message, at, now)],
         running := s.running - {id},
         due := s.due[DueKey(s.jobs[id].spec.queue, id) := at])
    else s
  }

  // ---------------------------------------------------------------- manual steps

  /** The first objection met when the ids are checked in order. */
  function Screen(jobs: map<JobId, Row>, ids: seq<JobId>, allowed: Row -> bool): Option<Refusal> {
    if ids == [] then None
    else if ids[0] !in jobs then Some(NotFound)
    else if !allowed(jobs[ids[0]]) then Some(InvalidTransition)
    else Screen(jobs, ids[1..], allowed)
  }

  function RetryStore(s: Store, ids: seq<JobId>, now: Time): Store {
    if Screen(s.jobs, ids, CanRetry).Some? then s else RetrySome(s, Elements(ids), now)
  }

  function RetrySome(s: Store, ids: set<JobId>, now: Time): Store {
    s.(jobs := Rewrite(s.jobs, ids, RetryEdit(now)),
       due := AddAll(s.due, DueKeys(s.jobs, ids), now),
       running := s.running - ids)
  }

  function CancelStore(s: Store, ids: seq<JobId>, now: Time): Store {
    if Screen(s.jobs, ids, CanCancel).Some? then s else CancelSome(s, Elements(ids), now)
  }

  function CancelSome(s: Store, ids: set<JobId>, now: Time): Store {
    s.(jobs := Rewrite(s.jobs, ids, CancelEdit(now)), due := s.due - DueKeys(s.jobs, ids))
  }

  // ---------------------------------------------------------------- maintenance

  function Expired(s: Store, cutoff: Time): set<JobId> {
    set i | i in s.running && s.running[i] <= cutoff
  }

  function Stale(s: Store, cutoff: Time): set<JobId> {
    set i | i in s.running && s.running[i] <= cutoff && i in s.jobs && s.jobs[i].state.Running?
  }

  function RequeueStaleStore(s: Store, timeout: int, now: Time): Store {
    RequeueSome(s, Stale(s, now - timeout), Expired(s, now - timeout), now)
  }

  function RequeueSome(s: Store, stale: set<JobId>, expired: set<JobId>, now: Time): Store {
    s.(jobs := Rewrite(s.jobs, stale, RequeueEdit(now)),
       due := AddAll(s.due, DueKeys(s.jobs, stale), now),
       running := s.running - expired)
  }

  function Prunable(s: Store, before: Time, states: set<State>): set<JobId> {
    set i | i in s.created && s.created[i] < before && i in s.jobs && s.jobs[i].state in states
  }

  /** Index entries older than `before` whose job is gone. */
  function Orphans(s: Store, before: Time): set<JobId> {
    set i | i in s.created && s.created[i] < before && i !in s.jobs
  }

  function PruneStore(s: Store, before: Time, states: set<State>): Store {
    if states == {} then s else DropSome(s, Prunable(s, before, states), Orphans(s, before))
  }

  function DropSome(s: Store, gone: set<JobId>, orphans: set<JobId>): Store {
    s.(jobs := s.jobs - gone,
       uuids := s.uuids - UuidsOf(s.jobs, gone),
       ids := s.ids - (gone + orphans),
       created := s.created - (gone + orphans),
       running := s.running - gone,
       due := s.due - DueKeys(s.jobs, gone))
  }

  // ---------------------------------------------------------------- one step

  ghost function Apply(s: Store, op: Op): Store {
    match op
    case Enqueue(rows) => EnqueueStore(s, rows)
    case Claim(q, node, max, now) => ClaimStore(s, q, node, max, now)
    case Complete(id, output, now) => CompleteStore(s, id, output, now)
    case Fail(id, message, now) => FailStore(s, id, message, now)
    case ScheduleRetry(id, message, at, now) => ScheduleRetryStore(s, id, message, at, now)
    case Retry(id, now) => RetryStore(s, [id], now)
    case RetryBatch(ids, now) => RetryStore(s, ids, now)
    case Cancel(id, now) => CancelStore(s, [id], now)
    case CancelBatch(ids, now) => CancelStore(s, ids, now)
    case RequeueStale(timeout, now) => RequeueStaleStore(s, timeout, now)
    case Prune(before, states) => PruneStore(s, before, states)
  }

  ghost function Answer(s: Store, op: Op): Reply {
    match op
    case Enqueue(rows) => if Clashes(s, rows) then Refused(DuplicateUuid) else Inserted(FreshIds(s, |rows|))
    case Claim(q, node, max, now) => Claimed(ClaimedRows(s, q, node, max, now))
    case Complete(id, _, _) => if id in s.jobs && s.jobs[id].state.Running? then Done else Refused(NotFound)
    case Fail(id, _, _) => if id in s.jobs && CanFail(s.jobs[id]) then Done else Refused(NotFound)
    case ScheduleRetry(id, _, _, _) => if id in s.jobs && s.jobs[id].state.Running? then Done else Refused(NotFound)
    case Retry(id, _) => Screened(Screen(s.jobs, [id], CanRetry))
    case RetryBatch(ids, _) => Screened(Screen(s.jobs, ids, CanRetry))
    case Cancel(id, _) => Screened(Screen(s.jobs, [id], CanCancel))
    case CancelBatch(ids, _) => Screened(Screen(s.jobs, ids, CanCancel))
    case RequeueStale(timeout, now) => Counted(|Stale(s, now - timeout)|)
    case Prune(before, states) => Counted(if states == {} then 0 else |Prunable(s, before, states)|)
  }

  function Screened(objection: Option<Refusal>): Reply {
    match objection
    case None => Done
    case Some(why) => Refused(why)
  }

  lemma {:induction false} ScreenPasses(jobs: map<JobId, Row>, ids: seq<JobId>, allowed: Row -> bool)
    ensures Screen(jobs, ids, allowed).None? <==> forall i :: i in ids ==> i in jobs && allowed(jobs[i])
  {
    if ids != [] {
      assert ids == [ids[0]] + ids[1..];
      ScreenPasses(jobs, ids[1..], allowed);
    }
  }

  /** Checking in order stops at the first id that is missing or not allowed. */
  lemma {:induction false} ScreenStops(jobs: map<JobId, Row>, ids: seq<JobId>, allowed: Row -> bool, k: nat)
    requires k < |ids|
    requires forall j :: 0 <= j < k ==> ids[j] in jobs && allowed(jobs[ids[j]])
    requires ids[k] in jobs ==> !allowed(jobs[ids[k]])
    ensures Screen(jobs, ids, allowed) == Some(if ids[k] in jobs then InvalidTransition else NotFound)
  {
    if k > 0 {
      ScreenStops(jobs, ids[1..], allowed, k - 1);
    }
  }
}
