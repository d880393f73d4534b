/** Artifact jobs shared by workers. Every SQL statement or transaction on the
    job table is one atomic step; a run is any interleaving of such steps. */
module JobModel {
  import opened Wrappers

  type Key = string
  type ArtifactKind = string
  type Worker = string
  type Time = nat

  datatype Status = Queued | Running | Succeeded | Failed | Abandoned

  datatype Job = Job(
    kind: ArtifactKind,
    status: Status,
    worker: Option<Worker>,
    startedAt: Option<Time>,
    finishedAt: Option<Time>,
    error: Option<string>)

  /** The job table, and the keys the disposable cache holds. */
  datatype System = System(jobs: map<Key, Job>, cached: set<Key>)

  const OBSERVER: Worker := "worker:cache-observed"

  datatype Step =
    | Ensure(key: Key, kind: ArtifactKind)
    | Observe(key: Key, kind: ArtifactKind)
    | MarkObserved(key: Key, kind: ArtifactKind)
    | Claim(key: Key, kind: ArtifactKind, worker: Worker)
    | Complete(key: Key, worker: Worker)
    | Fail(key: Key, worker: Worker, error: string)
    | Abandon(key: Key, worker: Worker, error: string)
    | Requeue(key: Key)
    | Fill(key: Key)
    | Evict(key: Key)

  datatype Reply = Quiet | Claimed | AlreadySucceeded | Busy(status: Status, worker: Option<Worker>) | WrongKind | NotOwner | Finished | Requeued

  function OrElse<T>(a: Option<T>, b: T): Option<T> { if a.Some? then a else Some(b) }

  const FRESH := (kind: ArtifactKind) => Job(kind, Queued, None, None, None, None)

  /** Inserting leaves an existing row alone. */
  function InsertOrIgnore(jobs: map<Key, Job>, key: Key, row: Job): map<Key, Job> {
    if key in jobs then jobs else jobs[key := row]
  }

  predicate Claimable(s: System, key: Key, kind: ArtifactKind) {
    key in s.jobs ==>
      && s.jobs[key].kind == kind
      && s.jobs[key].status != Running
      && (s.jobs[key].status == Succeeded ==> key !in s.cached)
  }

  predicate OwnedBy(s: System, key: Key, worker: Worker) {
    key in s.jobs && s.jobs[key].status == Running && s.jobs[key].worker == Some(worker)
  }

  /** A finished row keeps its worker and start. */
  function Finish(s: System, key: Key, worker: Worker, status: Status, now: Time, error: Option<string>): (System, Reply) {
    if !OwnedBy(s, key, worker) then (s, NotOwner)
    else (s.(jobs := s.jobs[key := s.jobs[key].(status := status, finishedAt := Some(now), error := error)]), Finished)
  }

  function Apply(s: System, step: Step, now: Time): (System, Reply) {
    match step
    case Ensure(key, kind) => (s.(jobs := InsertOrIgnore(s.jobs, key, FRESH(kind))), Quiet)
    case Observe(key, kind) =>
      (s.(jobs := InsertOrIgnore(s.jobs, key, Job(kind, Succeeded, Some(OBSERVER), Some(now), Some(now), None))), Quiet)
    case MarkObserved(key, kind) =>
      if key in s.jobs && s.jobs[key].kind == kind && s.jobs[key].status != Succeeded && s.jobs[key].status != Running then
        var row := s.jobs[key];
        (s.(jobs := s.jobs[key := Job(kind, Succeeded, OrElse(row.worker, OBSERVER), OrElse(row.startedAt, now),
                                      OrElse(row.finishedAt, now), None)]), Quiet)
      else (s, Quiet)
    case Claim(key, kind, worker) =>
      if Claimable(s, key, kind) then
        (s.(jobs := s.jobs[key := Job(kind, Running, Some(worker), Some(now), None, None)]), Claimed)
      else
        var row := s.jobs[key];
        (s, if row.kind != kind then WrongKind
            else if row.status == Succeeded then AlreadySucceeded
            else Busy(row.status, row.worker))
    case Complete(key, worker) => Finish(s, key, worker, Succeeded, now, None)
    case Fail(key, worker, error) => Finish(s, key, worker, Failed, now, Some(error))
    case Abandon(key, worker, error) => Finish(s, key, worker, Abandoned, now, Some(error))
    case Requeue(key) =>
      if key in s.jobs && s.jobs[key].status == Succeeded && key !in s.cached then
        (s.(jobs := s.jobs[key := FRESH(s.jobs[key].kind)]), Requeued)
      else (s, Quiet)
    case Fill(key) => (s.(cached := s.cached + {key}), Quiet)
    case Evict(key) => (s.(cached := s.cached - {key}), Quiet)
  }

  // ---------------------------------------------------------------- runs

  /** A run: each step at the time it happens. */
  type Run = seq<(Step, Time)>

  function After(s: System, run: Run): System
    decreases |run|
  {
    if run == [] then s
    else Apply(After(s, run[..|run| - 1]), run[|run| - 1].0, run[|run| - 1].1).0
  }

  /** The reply step `i` of the run got. */
  function ReplyAt(s: System, run: Run, i: nat): Reply
    requires i < |run|
  {
    Apply(After(s, run[..i]), run[i].0, run[i].1).1
  }

  predicate IsFinish(step: Step) { step.Complete? || step.Fail? || step.Abandon? }

  function Claims(s: System, run: Run, key: Key): nat
    decreases |run|
  {
    if run == [] then 0
    else
      Claims(s, run[..|run| - 1], key)
      + (if run[|run| - 1].0.key == key && ReplyAt(s, run, |run| - 1) == Claimed then 1 else 0)
  }

  function Finishes(s: System, run: Run, key: Key): nat
    decreases |run|
  {
    if run == [] then 0
    else
      Finishes(s, run[..|run| - 1], key)
      + (if run[|run| - 1].0.key == key && ReplyAt(s, run, |run| - 1) == Finished then 1 else 0)
  }

  function Open(s: System, key: Key): int { if key in s.jobs && s.jobs[key].status == Running then 1 else 0 }
}

/** Safety over every interleaving. */
module JobLaws {
  import opened Wrappers
  import opened JobModel

  // ---------------------------------------------------------------- what every row keeps

  /** Which columns are filled follows from the status. */
  predicate WellFormed(row: Job) {
    match row.status
    case Queued => row.worker.None? && row.startedAt.None? && row.finishedAt.None? && row.error.None?
    case Running => row.worker.Some? && row.startedAt.Some? && row.finishedAt.None? && row.error.None?
    case Succeeded => row.worker.Some? && row.startedAt.Some? && row.finishedAt.Some? && row.error.None?
    case _ => row.worker.Some? && row.startedAt.Some? && row.finishedAt.Some? && row.error.Some?
  }

  predicate Valid(s: System) { forall k :: k in s.jobs ==> WellFormed(s.jobs[k]) }

  lemma {:induction false} RowsStayWellFormed(s: System, run: Run)
    requires Valid(s)
    ensures Valid(After(s, run))
    decreases |run|
  {
    if run != [] {
      RowsStayWellFormed(s, run[..|run| - 1]);
      StepKeepsRows(After(s, run[..|run| - 1]), run[|run| - 1].0, run[|run| - 1].1);
    }
  }

  lemma StepKeepsRows(s: System, step: Step, now: Time)
    requires Valid(s)
    ensures Valid(Apply(s, step, now).0)
  {
    var t := Apply(s, step, now).0;
    forall k | k in t.jobs
      ensures WellFormed(t.jobs[k])
    {
      if k != step.key {
        OneRow(s, step, now, k);
      }
    }
  }

  /** A step touches only the row of its own key, and never removes one or
      changes its kind. */
  lemma OneRow(s: System, step: Step, now: Time, key: Key)
    ensures var t := Apply(s, step, now).0;
            && (key != step.key ==> (key in t.jobs <==> key in s.jobs) && (key in s.jobs ==> t.jobs[key] == s.jobs[key]))
            && (key in s.jobs ==> key in t.jobs && t.jobs[key].kind == s.jobs[key].kind)
  {
  }

  lemma {:induction false} KindNeverChanges(s: System, run: Run, key: Key)
    requires key in s.jobs
    ensures key in After(s, run).jobs && After(s, run).jobs[key].kind == s.jobs[key].kind
    decreases |run|
  {
    if run != [] {
      KindNeverChanges(s, run[..|run| - 1], key);
      OneRow(After(s, run[..|run| - 1]), run[|run| - 1].0, run[|run| - 1].1, key);
    }
  }

  // ---------------------------------------------------------------- claims and finishes

  lemma OneStepBalance(s: System, step: Step, now: Time, key: Key)
    ensures var (t, reply) := Apply(s, step, now);
            Open(t, key) == Open(s, key)
                            + (if step.key == key && reply == Claimed then 1 else 0)
                            - (if step.key == key && reply == Finished then 1 else 0)
  {
  }

  /** Successful claims minus successful finishes is one exactly while running. */
  lemma {:induction false} ClaimsBalanceFinishes(s: System, run: Run, key: Key)
    ensures Open(s, key) + Claims(s, run, key) - Finishes(s, run, key) == Open(After(s, run), key)
    decreases |run|
  {
    if run != [] {
      var before := run[..|run| - 1];
      ClaimsBalanceFinishes(s, before, key);
      OneStepBalance(After(s, before), run[|run| - 1].0, run[|run| - 1].1, key);
    }
  }

  /** From an empty table no job is ever claimed twice without a finish between. */
  lemma NeverTwoOwners(run: Run, cached: set<Key>, key: Key, n: nat)
    requires n <= |run|
    ensures var s := System(map[], cached);
            0 <= Claims(s, run[..n], key) - Finishes(s, run[..n], key) <= 1
  {
    ClaimsBalanceFinishes(System(map[], cached), run[..n], key);
  }

  // ---------------------------------------------------------------- ownership

  /** The owner's own finish. */
  predicate OwnFinish(step: Step, key: Key, worker: Worker) {
    IsFinish(step) && step.key == key && step.worker == worker
  }

  /** While a worker owns a job nobody else's step changes the row. */
  lemma {:induction false} OwnerKeepsRow(s: System, run: Run, key: Key, worker: Worker)
    requires OwnedBy(s, key, worker)
    requires forall i :: 0 <= i < |run| ==> !OwnFinish(run[i].0, key, worker)
    ensures key in After(s, run).jobs && After(s, run).jobs[key] == s.jobs[key]
    decreases |run|
  {
    if run != [] {
      OwnerKeepsRow(s, run[..|run| - 1], key, worker);
      assert !OwnFinish(run[|run| - 1].0, key, worker);
    }
  }

  lemma {:induction false} AfterSplit(s: System, run: Run, k: nat)
    requires k <= |run|
    ensures After(s, run) == After(After(s, run[..k]), run[k..])
    decreases |run|
  {
    if k < |run| {
      var last := |run| - 1;
      AfterSplit(s, run[..last], k);
      assert run[..last][..k] == run[..k] && run[..last][k..] == run[k..][..|run[k..]| - 1];
      assert run[k..][|run[k..]| - 1] == run[last];
    } else {
      assert run[..k] == run && run[k..] == [];
    }
  }

  /** Between two successful claims of a job its first owner finished it. */
  lemma OwnerFinishesFirst(s: System, run: Run, key: Key, i: nat, j: nat)
    requires i < j < |run|
    requires run[i].0.Claim? && run[j].0.Claim? && run[i].0.key == run[j].0.key == key
    requires ReplyAt(s, run, i) == Claimed && ReplyAt(s, run, j) == Claimed
    ensures exists m :: i < m < j && OwnFinish(run[m].0, key, run[i].0.worker)
  {
    var claimed := After(s, run[..i + 1]);
    var between := run[i + 1..j];
    assert run[..i + 1][..i] == run[..i] && run[..i + 1][i] == run[i];
    assert OwnedBy(claimed, key, run[i].0.worker);
    AfterSplit(s, run[..j], i + 1);
    assert run[..j][..i + 1] == run[..i + 1] && run[..j][i + 1..] == between;
    if forall m :: 0 <= m < |between| ==> !OwnFinish(between[m].0, key, run[i].0.worker) {
      OwnerKeepsRow(claimed, between, key, run[i].0.worker);
      assert false;
    }
    var m :| 0 <= m < |between| && OwnFinish(between[m].0, key, run[i].0.worker);
    assert run[i + 1 + m] == between[m];
  }

  /** Step `i` claimed the job for the worker, and it has not finished it since. */
  ghost predicate HoldsClaim(s: System, run: Run, key: Key, worker: Worker, i: nat) {
    && i < |run| && run[i].0.Claim? && run[i].0.key == key && run[i].0.worker == worker && ReplyAt(s, run, i) == Claimed
    && forall m :: i < m < |run| ==> !(OwnFinish(run[m].0, key, worker) && ReplyAt(s, run, m) == Finished)
  }

  lemma OwnershipStep(s: System, step: Step, now: Time, key: Key, worker: Worker)
    requires OwnedBy(Apply(s, step, now).0, key, worker)
    ensures || (OwnedBy(s, key, worker) && !(OwnFinish(step, key, worker) && Apply(s, step, now).1 == Finished))
            || (step.Claim? && step.key == key && step.worker == worker && Apply(s, step, now).1 == Claimed)
  {
  }

  /** A worker owns a job only through a claim it has not finished; so a finish is
      accepted from nobody else. */
  lemma {:induction false} OwnershipComesFromClaim(s: System, run: Run, key: Key, worker: Worker)
    requires OwnedBy(After(s, run), key, worker) && !OwnedBy(s, key, worker)
    ensures exists i :: HoldsClaim(s, run, key, worker, i)
    decreases |run|
  {
    hide OwnedBy, Apply;
    var last := |run| - 1;
    var before := run[..last];
    OwnershipStep(After(s, before), run[last].0, run[last].1, key, worker);
    if ReplyAt(s, run, last) == Claimed && run[last].0.Claim? && run[last].0.key == key && run[last].0.worker == worker {
      assert HoldsClaim(s, run, key, worker, last);
    } else {
      OwnershipComesFromClaim(s, before, key, worker);
      var i :| HoldsClaim(s, before, key, worker, i);
      StillHolds(s, run, key, worker, i);
    }
  }

  lemma ReplyInPrefix(s: System, run: Run, last: nat, m: nat)
    requires m < last <= |run|
    ensures ReplyAt(s, run[..last], m) == ReplyAt(s, run, m) && run[..last][m] == run[m]
  {
    hide Apply, After;
    assert run[..last][..m] == run[..m];
  }

  lemma StillHolds(s: System, run: Run, key: Key, worker: Worker, i: nat)
    requires run != [] && HoldsClaim(s, run[..|run| - 1], key, worker, i)
    requires !(OwnFinish(run[|run| - 1].0, key, worker) && ReplyAt(s, run, |run| - 1) == Finished)
    ensures HoldsClaim(s, run, key, worker, i)
  {
    hide OwnFinish, ReplyAt;
    var last := |run| - 1;
    ReplyInPrefix(s, run, last, i);
    forall m | i < m < |run|
      ensures !(OwnFinish(run[m].0, key, worker) && ReplyAt(s, run, m) == Finished)
    {
      if m < last {
        ReplyInPrefix(s, run, last, m);
      }
    }
  }
}
