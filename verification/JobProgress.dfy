/** What a claim or a finish is answered, read off the run alone. */
module JobProgress {
  import opened Wrappers
  import opened JobModel
  import opened JobLaws

  // ---------------------------------------------------------------- held claims

  /** An unfinished claim is ownership: nothing but the owner's own accepted
      finish takes a job away. */
  lemma {:induction false} HeldMeansOwned(s: System, run: Run, key: Key, worker: Worker, i: nat)
    requires HoldsClaim(s, run, key, worker, i)
    ensures OwnedBy(After(s, run), key, worker)
    decreases |run|
  {
    var last := |run| - 1;
    if i < last {
      PrefixHolds(s, run, key, worker, i);
      HeldMeansOwned(s, run[..last], key, worker, i);
      OwnedStays(After(s, run[..last]), run[last].0, run[last].1, key, worker);
    }
  }

  lemma PrefixHolds(s: System, run: Run, key: Key, worker: Worker, i: nat)
    requires HoldsClaim(s, run, key, worker, i) && i < |run| - 1
    ensures HoldsClaim(s, run[..|run| - 1], key, worker, i)
  {
    hide OwnFinish, ReplyAt;
    var last := |run| - 1;
    ReplyInPrefix(s, run, last, i);
    forall m | i < m < last
      ensures !(OwnFinish(run[..last][m].0, key, worker) && ReplyAt(s, run[..last], m) == Finished)
    {
      ReplyInPrefix(s, run, last, m);
    }
  }

  lemma OwnedStays(s: System, step: Step, now: Time, key: Key, worker: Worker)
    requires OwnedBy(s, key, worker) && !(OwnFinish(step, key, worker) && Apply(s, step, now).1 == Finished)
    ensures OwnedBy(Apply(s, step, now).0, key, worker)
  {
  }

  /** The worker has a claim on the job that it has not finished. */
  ghost predicate Holds(s: System, run: Run, key: Key, worker: Worker) {
    exists i :: HoldsClaim(s, run, key, worker, i)
  }

  lemma OwnedExactlyWhileHeld(cached: set<Key>, run: Run, key: Key, worker: Worker)
    ensures OwnedBy(After(System(map[], cached), run), key, worker) <==> Holds(System(map[], cached), run, key, worker)
  {
    hide HoldsClaim, After;
    var s := System(map[], cached);
    if i :| HoldsClaim(s, run, key, worker, i) {
      HeldMeansOwned(s, run, key, worker, i);
    }
    if OwnedBy(After(s, run), key, worker) {
      OwnershipComesFromClaim(s, run, key, worker);
    }
  }

  // ---------------------------------------------------------------- registration

  /** The kind the first step to name the job gave it. */
  function Registered(run: Run, key: Key): Option<ArtifactKind> {
    if run == [] then None
    else if run[0].0.key == key && (run[0].0.Ensure? || run[0].0.Observe? || run[0].0.Claim?) then Some(run[0].0.kind)
    else Registered(run[1..], key)
  }

  function KindIn(s: System, key: Key): Option<ArtifactKind> {
    if key in s.jobs then Some(s.jobs[key].kind) else None
  }

  lemma StepRegisters(s: System, step: Step, now: Time, key: Key)
    ensures var t := Apply(s, step, now).0;
            KindIn(t, key) == if KindIn(s, key).Some? then KindIn(s, key)
                              else Registered([(step, now)], key)
  {
  }

  /** Adding a step at the end matters only while the job has no kind. */
  lemma {:induction false} RegisteredLast(run: Run, last: (Step, Time), key: Key)
    ensures Registered(run + [last], key) == if Registered(run, key).Some? then Registered(run, key) else Registered([last], key)
  {
    if run == [] {
      assert run + [last] == [last];
    } else {
      RegisteredLast(run[1..], last, key);
      assert (run + [last])[1..] == run[1..] + [last];
    }
  }

  lemma {:induction false} KindIsRegistered(cached: set<Key>, run: Run, key: Key)
    ensures KindIn(After(System(map[], cached), run), key) == Registered(run, key)
    decreases |run|
  {
    if run != [] {
      var before, last := run[..|run| - 1], run[|run| - 1];
      KindIsRegistered(cached, before, key);
      StepRegisters(After(System(map[], cached), before), last.0, last.1, key);
      RegisteredLast(before, last, key);
      assert run == before + [last];
    }
  }

  // ---------------------------------------------------------------- success

  predicate SucceededIn(s: System, key: Key) { key in s.jobs && s.jobs[key].status == Succeeded }

  /** Step `i` recorded the success, by completing the job or by observing its
      artifact, and the job was neither claimed nor requeued since. */
  ghost predicate Settled(s: System, run: Run, key: Key, i: nat) {
    && i < |run| && run[i].0.key == key && (run[i].0.Complete? || run[i].0.Observe? || run[i].0.MarkObserved?)
    && SucceededIn(After(s, run[..i + 1]), key)
    && forall m :: i < m < |run| && run[m].0.key == key ==> ReplyAt(s, run, m) != Claimed && ReplyAt(s, run, m) != Requeued
  }

  lemma SuccessStep(s: System, step: Step, now: Time, key: Key)
    ensures var (t, reply) := Apply(s, step, now);
            && (SucceededIn(s, key) ==>
                  (SucceededIn(t, key) <==> !(step.key == key && (reply == Claimed || reply == Requeued))))
            && (!SucceededIn(s, key) && SucceededIn(t, key) ==>
                  step.key == key && (step.Complete? || step.Observe? || step.MarkObserved?))
  {
  }

  lemma {:induction false} SettledMeansSucceeded(s: System, run: Run, key: Key, i: nat)
    requires Settled(s, run, key, i)
    ensures SucceededIn(After(s, run), key)
    decreases |run|
  {
    hide SucceededIn, Apply;
    var last := |run| - 1;
    if i < last {
      PrefixSettled(s, run, key, i);
      SettledMeansSucceeded(s, run[..last], key, i);
      SuccessStep(After(s, run[..last]), run[last].0, run[last].1, key);
    } else {
      assert run[..i + 1] == run;
    }
  }

  lemma PrefixSettled(s: System, run: Run, key: Key, i: nat)
    requires Settled(s, run, key, i) && i < |run| - 1
    ensures Settled(s, run[..|run| - 1], key, i)
  {
    hide ReplyAt, After, SucceededIn;
    var last := |run| - 1;
    assert run[..last][..i + 1] == run[..i + 1] && run[..last][i] == run[i];
    forall m | i < m < last && run[..last][m].0.key == key
      ensures ReplyAt(s, run[..last], m) != Claimed && ReplyAt(s, run[..last], m) != Requeued
    {
      ReplyInPrefix(s, run, last, m);
    }
  }

  lemma StillSettled(s: System, run: Run, key: Key, i: nat)
    requires run != [] && Settled(s, run[..|run| - 1], key, i)
    requires run[|run| - 1].0.key == key ==> ReplyAt(s, run, |run| - 1) != Claimed && ReplyAt(s, run, |run| - 1) != Requeued
    ensures Settled(s, run, key, i)
  {
    hide ReplyAt, After, SucceededIn;
    var last := |run| - 1;
    assert run[..last][..i + 1] == run[..i + 1] && run[..last][i] == run[i];
    forall m | i < m < |run| && run[m].0.key == key
      ensures ReplyAt(s, run, m) != Claimed && ReplyAt(s, run, m) != Requeued
    {
      if m < last {
        ReplyInPrefix(s, run, last, m);
      }
    }
  }

  lemma {:induction false} SuccessWasSettled(s: System, run: Run, key: Key)
    requires SucceededIn(After(s, run), key) && !SucceededIn(s, key)
    ensures exists i :: Settled(s, run, key, i)
    decreases |run|
  {
    hide SucceededIn, Apply;
    var last := |run| - 1;
    SuccessStep(After(s, run[..last]), run[last].0, run[last].1, key);
    if SucceededIn(After(s, run[..last]), key) {
      SuccessWasSettled(s, run[..last], key);
      var i :| Settled(s, run[..last], key, i);
      StillSettled(s, run, key, i);
    } else {
      assert run[..last + 1] == run;
      assert Settled(s, run, key, last);
    }
  }

  // ---------------------------------------------------------------- answers

  /** Whatever happened since the table was empty, a claim is refused for one of
      three reasons and succeeds otherwise: the job was first named with another
      kind, a worker holds an unfinished claim, or the job was completed or
      observed after its last claim and its artifact is still there. A busy
      answer names the worker that holds the claim. */
  lemma {:induction false} ClaimAnswer(cached: set<Key>, run: Run, key: Key, kind: ArtifactKind, worker: Worker, now: Time)
    ensures var s := System(map[], cached);
            var r := Apply(After(s, run), Claim(key, kind, worker), now).1;
            && (r == WrongKind <==> Registered(run, key).Some? && Registered(run, key) != Some(kind))
            && (r.Busy? <==> Registered(run, key) == Some(kind) && exists w :: Holds(s, run, key, w))
            && (r.Busy? ==> r.status == Running && r.worker.Some? && Holds(s, run, key, r.worker.value))
            && (r == AlreadySucceeded <==>
                  Registered(run, key) == Some(kind) && key in After(s, run).cached && exists i :: Settled(s, run, key, i))
            && (r == Claimed || r == WrongKind || r.Busy? || r == AlreadySucceeded)
  {
    hide After, Holds, Settled, Registered, WellFormed;
    var s := System(map[], cached);
    var t := After(s, run);
    KindIsRegistered(cached, run, key);
    forall w
      ensures OwnedBy(t, key, w) <==> Holds(s, run, key, w)
    {
      OwnedExactlyWhileHeld(cached, run, key, w);
    }
    SucceededExactlyWhenSettled(cached, run, key);
    RunningHasWorker(cached, run, key);
    ReadClaim(t, key, kind, worker, now);
  }

  lemma ReadClaim(t: System, key: Key, kind: ArtifactKind, worker: Worker, now: Time)
    requires key in t.jobs && t.jobs[key].status == Running ==> t.jobs[key].worker.Some?
    ensures var r := Apply(t, Claim(key, kind, worker), now).1;
            && (r == WrongKind <==> KindIn(t, key).Some? && KindIn(t, key) != Some(kind))
            && (r.Busy? <==> KindIn(t, key) == Some(kind) && exists w :: OwnedBy(t, key, w))
            && (r.Busy? ==> r.status == Running && r.worker.Some? && OwnedBy(t, key, r.worker.value))
            && (r == AlreadySucceeded <==> KindIn(t, key) == Some(kind) && key in t.cached && SucceededIn(t, key))
            && (r == Claimed || r == WrongKind || r.Busy? || r == AlreadySucceeded)
  {
    if key in t.jobs && t.jobs[key].status == Running {
      assert OwnedBy(t, key, t.jobs[key].worker.value);
    }
  }

  lemma SucceededExactlyWhenSettled(cached: set<Key>, run: Run, key: Key)
    ensures SucceededIn(After(System(map[], cached), run), key) <==> exists i :: Settled(System(map[], cached), run, key, i)
  {
    hide Settled, After;
    var s := System(map[], cached);
    if i :| Settled(s, run, key, i) {
      SettledMeansSucceeded(s, run, key, i);
    }
    if SucceededIn(After(s, run), key) {
      SuccessWasSettled(s, run, key);
    }
  }

  lemma RunningHasWorker(cached: set<Key>, run: Run, key: Key)
    ensures var t := After(System(map[], cached), run);
            key in t.jobs && t.jobs[key].status == Running ==> t.jobs[key].worker.Some?
  {
    hide After;
    RowsStayWellFormed(System(map[], cached), run);
  }

  /** A finish is accepted exactly from the worker whose claim is unfinished. */
  lemma {:induction false} FinishAnswer(cached: set<Key>, run: Run, step: Step, now: Time)
    requires IsFinish(step)
    ensures var s := System(map[], cached);
            Apply(After(s, run), step, now).1 == (if Holds(s, run, step.key, step.worker) then Finished else NotOwner)
  {
    hide After, Holds;
    OwnedExactlyWhileHeld(cached, run, step.key, step.worker);
  }

  // ---------------------------------------------------------------- a freed job is claimed next

  predicate Free(s: System, key: Key) {
    key in s.jobs && (s.jobs[key].status == Failed || s.jobs[key].status == Abandoned)
  }

  /** No claim of the job and no observation of its artifact. */
  predicate LeavesAlone(step: Step, key: Key) { step.key == key ==> !step.Claim? && !step.MarkObserved? }

  lemma FreeStays(s: System, step: Step, now: Time, key: Key)
    requires Free(s, key) && LeavesAlone(step, key)
    ensures Free(Apply(s, step, now).0, key)
  {
  }

  lemma {:induction false} FreeStaysOver(s: System, run: Run, key: Key)
    requires Free(s, key) && forall i :: 0 <= i < |run| ==> LeavesAlone(run[i].0, key)
    ensures Free(After(s, run), key)
    decreases |run|
  {
    hide Free, LeavesAlone, Apply;
    if run != [] {
      FreeStaysOver(s, run[..|run| - 1], key);
      FreeStays(After(s, run[..|run| - 1]), run[|run| - 1].0, run[|run| - 1].1, key);
    }
  }

  lemma FailureFrees(s: System, step: Step, now: Time)
    requires (step.Fail? || step.Abandon?) && Apply(s, step, now).1 == Finished
    ensures Free(Apply(s, step, now).0, step.key)
  {
  }

  lemma FreeIsClaimable(s: System, key: Key, kind: ArtifactKind, worker: Worker, now: Time)
    requires Free(s, key) && KindIn(s, key) == Some(kind)
    ensures Apply(s, Claim(key, kind, worker), now).1 == Claimed
    ensures OwnedBy(Apply(s, Claim(key, kind, worker), now).0, key, worker)
  {
  }

  /** A failure or an abandonment never strands a job: whatever else happens, the
      next claim of the same kind gets it, whether or not an artifact is cached. */
  lemma {:induction false} FreedJobIsClaimedNext(cached: set<Key>, run: Run, j: nat, key: Key, kind: ArtifactKind, worker: Worker, now: Time)
    requires j < |run| && run[j].0.key == key && (run[j].0.Fail? || run[j].0.Abandon?)
    requires ReplyAt(System(map[], cached), run, j) == Finished && Registered(run, key) == Some(kind)
    requires forall i :: j < i < |run| ==> LeavesAlone(run[i].0, key)
    ensures var t := After(System(map[], cached), run);
            Apply(t, Claim(key, kind, worker), now).1 == Claimed && OwnedBy(Apply(t, Claim(key, kind, worker), now).0, key, worker)
  {
    hide LeavesAlone, Free, Registered, OwnedBy;
    var s := System(map[], cached);
    FailureFrees(After(s, run[..j]), run[j].0, run[j].1);
    assert run[..j + 1][..j] == run[..j] && run[..j + 1][j] == run[j];
    AfterSplit(s, run, j + 1);
    FreeStaysOver(After(s, run[..j + 1]), run[j + 1..], key);
    KindIsRegistered(cached, run, key);
    FreeIsClaimable(After(s, run), key, kind, worker, now);
  }
}
