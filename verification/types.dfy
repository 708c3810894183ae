/** Job rows and the values they are made of. Times are integers in microseconds. */
module Types {

  datatype Option<+T> = None | Some(value: T)

  type JobId = nat
  type Time = int

  datatype State = Pending | Scheduled | Available | Running | Completed | Retryable | Failed | Cancelled
  {
    predicate Terminal() {
      Completed? || Failed? || Cancelled?
    }

    /** The states from which a driver's Claim may take a row. */
    predicate Claimable() {
      Available? || Scheduled? || Retryable?
    }
  }

  datatype AttemptError = AttemptError(attempt: int, message: string, at: Time)

  /** The columns that are written when a job is created and by no later step. */
  datatype Spec = Spec(
    uuid: string,
    queue: string,
    kind: string,
    payload: string,
    tags: seq<string>,
    metadata: map<string, string>,
    priority: int,
    maxAttempts: int,
    batchId: string,
    timeout: int,
    createdAt: Time)

  datatype Row = Row(
    id: JobId,
    spec: Spec,
    state: State,
    attempt: int,
    attemptedBy: seq<string>,
    attemptedAt: Option<Time>,
    errors: seq<AttemptError>,
    output: Option<string>,
    scheduledAt: Time,
    startedAt: Option<Time>,
    completedAt: Option<Time>,
    finalizedAt: Option<Time>,
    nodeId: string)

  /** What a dispatch hands to a driver: a row no worker has touched yet. */
  ghost predicate InitialRow(r: Row) {
    && r.spec.uuid != ""
    && (r.state.Available? || r.state.Scheduled? || r.state.Pending?)
    && r.attempt == 0
    && r.errors == []
    && r.attemptedBy == []
    && r.nodeId == ""
    && r.attemptedAt.None? && r.startedAt.None? && r.completedAt.None? && r.finalizedAt.None?
    && r.output.None?
  }

  /** The number of claims a row can have between two resets. */
  function Cap(r: Row): nat {
    if r.spec.maxAttempts < 0 then 0 else r.spec.maxAttempts
  }

  function Elements<T>(xs: seq<T>): set<T> {
    set x | x in xs
  }

  ghost predicate Distinct<T(!new)>(xs: seq<T>) {
    forall i, j :: 0 <= i < j < |xs| ==> xs[i] != xs[j]
  }

  function Last<T>(xs: seq<T>): T
    requires |xs| > 0
  {
    xs[|xs| - 1]
  }

  function Front<T>(xs: seq<T>): seq<T>
    requires |xs| > 0
  {
    xs[..|xs| - 1]
  }

  lemma {:induction false} DistinctCount<T(!new)>(xs: seq<T>)
    requires Distinct(xs)
    ensures |Elements(xs)| == |xs|
  {
    if xs != [] {
      DistinctCount(Front(xs));
      assert Elements(xs) == Elements(Front(xs)) + {Last(xs)};
    }
  }

  lemma DistinctStep<T(!new)>(xs: seq<T>, i: nat)
    requires i < |xs| && Distinct(xs)
    ensures xs[i] !in Elements(xs[..i])
  {}

  lemma ElementsNone<T>(xs: seq<T>)
    ensures Elements(xs[..0]) == {}
  {}

  /** One more element of a sequence. */
  lemma ElementsStep<T>(xs: seq<T>, i: nat)
    requires i < |xs|
    ensures Elements(xs[..i + 1]) == Elements(xs[..i]) + {xs[i]}
  {
    assert xs[..i + 1] == xs[..i] + [xs[i]];
  }
}
