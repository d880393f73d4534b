/** The job table as the protocol functions edit it, one row at a time. */
module JobMachine {
  import opened Wrappers
  import opened JobModel
  import opened JobLaws

  datatype JobError = RegisteredAs(kind: ArtifactKind) | NotOwnedBy(worker: Worker)

  datatype ClaimResult = NowRunning | HasSucceeded | IsBusy(status: Status, worker: Option<Worker>)

  /** What one round of waiting finds. */
  datatype Poll = CacheEntry | EndedAs(status: Status, error: Option<string>) | MissingCacheEntry | KeepWaiting

  class JobStore {
    var jobs: map<Key, Job>
    var cached: set<Key>

    constructor ()
      ensures Contents() == System(map[], {}) && Valid(Contents())
    {
      jobs, cached := map[], {};
    }

    function Contents(): System
      reads this
    {
      System(jobs, cached)
    }

    method EnsureJob(key: Key, kind: ArtifactKind, now: Time)
      modifies this`jobs
      ensures Contents() == Apply(old(Contents()), Ensure(key, kind), now).0
    {
      if key !in jobs {
        jobs := jobs[key := FRESH(kind)];
      }
    }

    /** Two statements when the cache entry was seen, one otherwise; then the kind is compared. */
    method EnsureJobForCacheState(key: Key, kind: ArtifactKind, cacheExists: bool, now: Time) returns (r: Result<(), JobError>)
      modifies this`jobs
      ensures Contents() == if cacheExists
                            then Apply(Apply(old(Contents()), Observe(key, kind), now).0, MarkObserved(key, kind), now).0
                            else Apply(old(Contents()), Ensure(key, kind), now).0
      ensures key in jobs && (r.Ok? <==> jobs[key].kind == kind)
      ensures r.Ok? && cacheExists ==> jobs[key].status == Succeeded || (jobs[key].status == Running && old(key in jobs && jobs[key].status == Running))
    {
      if cacheExists {
        if key !in jobs {
          jobs := jobs[key := Job(kind, Succeeded, Some(OBSERVER), Some(now), Some(now), None)];
        }
        var row := jobs[key];
        if row.kind == kind && row.status != Succeeded && row.status != Running {
          jobs := jobs[key := row.(status := Succeeded, worker := OrElse(row.worker, OBSERVER), startedAt := OrElse(row.startedAt, now),
                                   finishedAt := OrElse(row.finishedAt, now), error := None)];
        }
      } else {
        EnsureJob(key, kind, now);
      }
      if jobs[key].kind != kind {
        return Err(RegisteredAs(jobs[key].kind));
      }
      return Ok(());
    }

    /** One transaction: insert the row if there is none, update it if it is free. */
    method ClaimJob(key: Key, kind: ArtifactKind, worker: Worker, now: Time) returns (r: Result<ClaimResult, JobError>)
      modifies this`jobs
      ensures Contents() == Apply(old(Contents()), Claim(key, kind, worker), now).0
      ensures r == match Apply(old(Contents()), Claim(key, kind, worker), now).1
                   case Claimed => Ok(NowRunning)
                   case AlreadySucceeded => Ok(HasSucceeded)
                   case Busy(status, owner) => Ok(IsBusy(status, owner))
                   case _ => Err(RegisteredAs(old(jobs)[key].kind))
    {
      if key !in jobs {
        jobs := jobs[key := FRESH(kind)];
      }
      var row := jobs[key];
      var free := row.status == Queued || row.status == Failed || row.status == Abandoned
                  || (row.status == Succeeded && key !in cached);
      if row.kind == kind && free {
        jobs := jobs[key := row.(status := Running, worker := Some(worker), startedAt := Some(now), finishedAt := None, error := None)];
        return Ok(NowRunning);
      }
      if row.kind != kind {
        return Err(RegisteredAs(row.kind));
      }
      if row.status == Succeeded {
        return Ok(HasSucceeded);
      }
      return Ok(IsBusy(row.status, row.worker));
    }

    method CompleteJob(key: Key, worker: Worker, now: Time) returns (r: Result<(), JobError>)
      modifies this`jobs
      ensures Contents() == Apply(old(Contents()), Complete(key, worker), now).0
      ensures r.Ok? <==> OwnedBy(old(Contents()), key, worker)
    {
      r := FinishRow(key, worker, Succeeded, now, None);
    }

    method FailJob(key: Key, worker: Worker, error: string, now: Time) returns (r: Result<(), JobError>)
      modifies this`jobs
      ensures Contents() == Apply(old(Contents()), Fail(key, worker, error), now).0
      ensures r.Ok? <==> OwnedBy(old(Contents()), key, worker)
    {
      r := FinishRow(key, worker, Failed, now, Some(error));
    }

    method AbandonJob(key: Key, worker: Worker, error: string, now: Time) returns (r: Result<(), JobError>)
      modifies this`jobs
      ensures Contents() == Apply(old(Contents()), Abandon(key, worker, error), now).0
      ensures r.Ok? <==> OwnedBy(old(Contents()), key, worker)
    {
      r := FinishRow(key, worker, Abandoned, now, Some(error));
    }

    method FinishRow(key: Key, worker: Worker, status: Status, now: Time, error: Option<string>) returns (r: Result<(), JobError>)
      modifies this`jobs
      ensures Contents() == Finish(old(Contents()), key, worker, status, now, error).0
      ensures r.Ok? <==> OwnedBy(old(Contents()), key, worker)
    {
      if key in jobs && jobs[key].status == Running && jobs[key].worker == Some(worker) {
        jobs := jobs[key := jobs[key].(status := status, finishedAt := Some(now), error := error)];
        return Ok(());
      }
      return Err(NotOwnedBy(worker));
    }

    /** One round of waiting. A success whose artifact is gone goes back to the
        queue; a running job is never touched. */
    method PollOnce(key: Key) returns (r: Poll)
      modifies this`jobs
      ensures key in cached ==> r == CacheEntry && Contents() == old(Contents())
      ensures key !in cached ==> forall now :: Contents() == Apply(old(Contents()), Requeue(key), now).0
      ensures r == MissingCacheEntry <==> key !in cached && key in old(jobs) && old(jobs)[key].status == Succeeded
      ensures r.EndedAs? <==> key !in cached && key in old(jobs) && (old(jobs)[key].status == Failed || old(jobs)[key].status == Abandoned)
      ensures r.EndedAs? ==> r.status == old(jobs)[key].status && r.error == old(jobs)[key].error
    {
      if key in cached {
        return CacheEntry;
      }
      if key in jobs {
        var row := jobs[key];
        if row.status == Failed || row.status == Abandoned {
          return EndedAs(row.status, row.error);
        }
        if row.status == Succeeded {
          jobs := jobs[key := FRESH(row.kind)];
          return MissingCacheEntry;
        }
      }
      return KeepWaiting;
    }
  }
}
