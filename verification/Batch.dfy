/** Applying a batch of operations: one transaction, one savepoint per
    operation, and all or nothing. The store's content, the operations and the
    hook run before a commit are parameters. */
module Batch {
  import opened Wrappers

  datatype Status = Applied | AlreadyApplied | Conflict

  /** What running one operation did. Whatever it left behind when it did not
      apply is undone by its savepoint. */
  datatype Ran<+S> = Ran(after: S, outcome: Option<Status>)

  datatype Branch = Branch(root: string, history: Option<string>)

  datatype ApiOp = ApiOp(body: string, expectRoot: Option<string>)

  datatype Request = Request(schemaSupported: bool, expectRoot: Option<string>, ops: seq<ApiOp>)

  datatype Env<!S> = Env(
    branchOf: S -> Option<Branch>,
    parse: (S, string, ApiOp) -> Option<string>,
    run: (S, string, string) -> Ran<S>,
    hook: (S, Report) -> (S, bool))

  datatype OpResult = Did(status: Status) | RolledBack | Failed

  datatype Why = ByConflict | ByError

  datatype Report = Report(
    status: Option<Status>, committed: bool, rolledBack: Option<Why>,
    oldBranch: Branch, newBranch: Branch,
    total: nat, completed: nat, applied: nat, results: seq<OpResult>)

  datatype Error = UnsupportedSchema | NoBranch | HookFailed

  function MergeStatus(current: Status, next: Status): Status {
    if current == Conflict || next == Conflict then Conflict
    else if current == Applied || next == Applied then Applied
    else AlreadyApplied
  }

  function MarkRolledBack(results: seq<OpResult>): (r: seq<OpResult>)
    ensures |r| == |results|
    ensures forall i :: 0 <= i < |r| ==> r[i] == if results[i] == Did(Applied) then RolledBack else results[i]
  {
    seq(|results|, i requires 0 <= i < |results| => if results[i] == Did(Applied) then RolledBack else results[i])
  }

  // ---------------------------------------------------------------- the sequential meaning

  /** The root an operation is judged against. */
  function Expected(req: Request, i: nat, current: string): string
    requires i < |req.ops|
  {
    match req.ops[i].expectRoot
    case Some(root) => root
    case None => if i == 0 && req.expectRoot.Some? then req.expectRoot.value else current
  }

  /** How operation `i` ends in state `s`: the state kept, and its outcome. */
  datatype Once<+S> = Kept(after: S, status: Status) | Refused | Lost

  function Do<S>(env: Env<S>, req: Request, i: nat, s: S): Once<S>
    requires i < |req.ops|
  {
    match env.branchOf(s)
    case None => Lost
    case Some(branch) =>
      var expected := Expected(req, i, branch.root);
      match env.parse(s, expected, req.ops[i])
      case None => Refused
      case Some(op) =>
        var ran := env.run(s, expected, op);
        match ran.outcome
        case None => Refused
        case Some(Applied) => Kept(ran.after, Applied)
        case Some(status) => Kept(s, status)
  }

  /** How the operations from `i` on end. */
  datatype End<+S> =
    | Finished(last: S, statuses: seq<Status>)
    | Stopped(last: S, statuses: seq<Status>, why: Why)
    | Broken

  function RunFrom<S>(env: Env<S>, req: Request, i: nat, s: S): (e: End<S>)
    requires i <= |req.ops|
    ensures e.Finished? ==> |e.statuses| == |req.ops| - i && Conflict !in e.statuses
    decreases |req.ops| - i
  {
    if i == |req.ops| then Finished(s, [])
    else
      match Do(env, req, i, s)
      case Lost => Broken
      case Refused => Stopped(s, [], ByError)
      case Kept(after, status) =>
        if status == Conflict then Stopped(after, [Conflict], ByConflict)
        else
          match RunFrom(env, req, i + 1, after)
          case Broken => Broken
          case Stopped(last, rest, why) => Stopped(last, [status] + rest, why)
          case Finished(last, rest) => Finished(last, [status] + rest)
  }

  function CountApplied(statuses: seq<Status>): (n: nat)
    ensures n > 0 <==> Applied in statuses
  {
    if statuses == [] then 0 else (if statuses[0] == Applied then 1 else 0) + CountApplied(statuses[1..])
  }

  function Aggregate(current: Status, statuses: seq<Status>): Status
    decreases |statuses|
  {
    if statuses == [] then current else Aggregate(MergeStatus(current, statuses[0]), statuses[1..])
  }

  /** The batch would be committed: every operation went through and one applied. */
  predicate WouldCommit<S>(env: Env<S>, req: Request, s: S) {
    && req.schemaSupported && env.branchOf(s).Some?
    && RunFrom(env, req, 0, s).Finished? && Applied in RunFrom(env, req, 0, s).statuses
    && env.branchOf(RunFrom(env, req, 0, s).last).Some?
  }

  // ---------------------------------------------------------------- the connection

  class Connection<S> {
    var db: S
    var begun: Option<S>
    var saves: seq<(nat, S)>

    constructor (db: S)
      ensures this.db == db && begun.None? && saves == []
    {
      this.db := db;
      begun, saves := None, [];
    }

    method Begin()
      requires begun.None?
      modifies this
      ensures begun == Some(db) && db == old(db) && saves == []
    {
      begun, saves := Some(db), [];
    }

    method Commit()
      requires begun.Some?
      modifies this
      ensures begun.None? && db == old(db) && saves == []
    {
      begun, saves := None, [];
    }

    method Rollback()
      requires begun.Some?
      modifies this
      ensures begun.None? && db == old(begun).value && saves == []
    {
      db := begun.value;
      begun, saves := None, [];
    }

    method Savepoint(name: nat)
      modifies this`saves
      ensures saves == old(saves) + [(name, db)]
    {
      saves := saves + [(name, db)];
    }

    method RollbackTo(name: nat)
      requires saves != [] && saves[|saves| - 1].0 == name
      modifies this`db
      ensures db == saves[|saves| - 1].1
    {
      db := saves[|saves| - 1].1;
    }

    method Release(name: nat)
      requires saves != [] && saves[|saves| - 1].0 == name
      modifies this`saves
      ensures saves == old(saves[..|saves| - 1])
    {
      saves := saves[..|saves| - 1];
    }
  }

  // ---------------------------------------------------------------- one operation

  /** One operation under its savepoint: kept if it applied, undone otherwise. */
  method ApplyOne<S>(env: Env<S>, req: Request, i: nat, conn: Connection<S>) returns (r: Result<Option<Status>, Error>)
    requires i < |req.ops|
    modifies conn
    ensures conn.begun == old(conn.begun)
    ensures match Do(env, req, i, old(conn.db))
            case Lost => r == Err(NoBranch)
            case Refused => r == Ok(None) && conn.db == old(conn.db) && conn.saves == old(conn.saves)
            case Kept(after, status) => r == Ok(Some(status)) && conn.db == after && conn.saves == old(conn.saves)
  {
    var branch := env.branchOf(conn.db);
    if branch.None? {
      return Err(NoBranch);
    }
    conn.Savepoint(i);
    var expected := Expected(req, i, branch.value.root);
    var op := env.parse(conn.db, expected, req.ops[i]);
    if op.None? {
      conn.RollbackTo(i);
      conn.Release(i);
      return Ok(None);
    }
    var ran := env.run(conn.db, expected, op.value);
    conn.db := ran.after;
    if ran.outcome.None? {
      conn.RollbackTo(i);
      conn.Release(i);
      return Ok(None);
    }
    if ran.outcome.value == Applied {
      conn.Release(i);
    } else {
      conn.RollbackTo(i);
      conn.Release(i);
    }
    return Ok(ran.outcome);
  }

  function Done(statuses: seq<Status>): (r: seq<OpResult>)
    ensures |r| == |statuses|
  {
    seq(|statuses|, i requires 0 <= i < |statuses| => Did(statuses[i]))
  }

  function ErrorReport(req: Request, initial: Branch, statuses: seq<Status>): Report {
    Report(None, false, Some(ByError), initial, initial, |req.ops|, |statuses| + 1, 0, MarkRolledBack(Done(statuses)) + [Failed])
  }

  function ConflictReport(req: Request, initial: Branch, aggregate: Status, statuses: seq<Status>): Report {
    Report(Some(aggregate), false, Some(ByConflict), initial, initial, |req.ops|, |statuses|, 0, MarkRolledBack(Done(statuses)))
  }

  function FullReport(req: Request, initial: Branch, final: Branch, aggregate: Status, applied: nat, statuses: seq<Status>): Report {
    Report(Some(aggregate), applied > 0, None, initial, final, |req.ops|, |statuses|, applied, Done(statuses))
  }

  /** The report on a batch, a function of how the operations ended. */
  function ReportOn<S>(env: Env<S>, req: Request, initial: Branch, end: End<S>): Result<(Report, bool), Error> {
    match end
    case Broken => Err(NoBranch)
    case Stopped(_, statuses, ByConflict) => Ok((ConflictReport(req, initial, Aggregate(AlreadyApplied, statuses), statuses), false))
    case Stopped(_, statuses, ByError) => Ok((ErrorReport(req, initial, statuses), false))
    case Finished(last, statuses) =>
      var aggregate, applied := Aggregate(AlreadyApplied, statuses), CountApplied(statuses);
      if applied == 0 then Ok((FullReport(req, initial, initial, aggregate, 0, statuses), false))
      else
        match env.branchOf(last)
        case None => Err(NoBranch)
        case Some(branch) => Ok((FullReport(req, initial, branch, aggregate, applied, statuses), true))
  }

  /** What the loop has done so far, in front of what is left. */
  function Ahead<S>(done: seq<Status>, end: End<S>): (r: End<S>)
    ensures done == [] ==> r == end
  {
    match end
    case Broken => Broken
    case Stopped(last, rest, why) => assert [] + rest == rest; Stopped(last, done + rest, why)
    case Finished(last, rest) => assert [] + rest == rest; Finished(last, done + rest)
  }

  lemma AheadStep<S>(done: seq<Status>, status: Status, end: End<S>)
    ensures Ahead(done, Ahead([status], end)) == Ahead(done + [status], end)
  {
    if !end.Broken? {
      assert done + ([status] + end.statuses) == (done + [status]) + end.statuses;
    }
  }

  lemma {:induction false} CountSnoc(statuses: seq<Status>, status: Status)
    ensures CountApplied(statuses + [status]) == CountApplied(statuses) + (if status == Applied then 1 else 0)
    ensures forall current :: Aggregate(current, statuses + [status]) == MergeStatus(Aggregate(current, statuses), status)
    decreases |statuses|
  {
    if statuses == [] {
      assert [] + [status] == [status] && [status][1..] == [];
    } else {
      assert (statuses + [status])[0] == statuses[0] && (statuses + [status])[1..] == statuses[1..] + [status];
      CountSnoc(statuses[1..], status);
    }
  }

  lemma NothingYet()
    ensures CountApplied([]) == 0 && Aggregate(AlreadyApplied, []) == AlreadyApplied
  {
  }

  /** The whole batch inside an open transaction; the flag says whether to commit. */
  method ApplyBatchInTx<S>(env: Env<S>, req: Request, conn: Connection<S>) returns (r: Result<(Report, bool), Error>)
    modifies conn
    ensures conn.begun == old(conn.begun)
    ensures !req.schemaSupported ==> r == Err(UnsupportedSchema)
    ensures req.schemaSupported && env.branchOf(old(conn.db)).None? ==> r == Err(NoBranch)
    ensures req.schemaSupported && env.branchOf(old(conn.db)).Some? ==>
              r == ReportOn(env, req, env.branchOf(old(conn.db)).value, RunFrom(env, req, 0, old(conn.db)))
    ensures r.Ok? ==> conn.db == RunFrom(env, req, 0, old(conn.db)).last && conn.saves == old(conn.saves)
  {
    hide Do, ErrorReport, ConflictReport, FullReport, MergeStatus, Aggregate, CountApplied;
    if !req.schemaSupported {
      return Err(UnsupportedSchema);
    }
    var initial := env.branchOf(conn.db);
    if initial.None? {
      return Err(NoBranch);
    }
    var statuses: seq<Status>, aggregate, applied, i := [], AlreadyApplied, 0, 0;
    NothingYet();
    while i < |req.ops|
      invariant 0 <= i <= |req.ops| && |statuses| == i
      invariant conn.begun == old(conn.begun) && conn.saves == old(conn.saves)
      invariant applied == CountApplied(statuses) && aggregate == Aggregate(AlreadyApplied, statuses)
      invariant RunFrom(env, req, 0, old(conn.db)) == Ahead(statuses, RunFrom(env, req, i, conn.db))
    {
      var outcome :- ApplyOne(env, req, i, conn);
      if outcome.None? {
        assert statuses + [] == statuses;
        return Ok((ErrorReport(req, initial.value, statuses), false));
      }
      var status := outcome.value;
      CountSnoc(statuses, status);
      if status == Applied {
        applied := applied + 1;
      }
      aggregate := MergeStatus(aggregate, status);
      if status == Conflict {
        statuses := statuses + [status];
        return Ok((ConflictReport(req, initial.value, aggregate, statuses), false));
      }
      AheadStep(statuses, status, RunFrom(env, req, i + 1, conn.db));
      statuses := statuses + [status];
      i := i + 1;
    }
    assert statuses + [] == statuses;
    if applied > 0 {
      var final := env.branchOf(conn.db);
      if final.None? {
        return Err(NoBranch);
      }
      return Ok((FullReport(req, initial.value, final.value, aggregate, applied, statuses), true));
    }
    return Ok((FullReport(req, initial.value, initial.value, aggregate, 0, statuses), false));
  }

  /** All or nothing: the store ends as the hook left the folded operations, or
      exactly as it began. */
  method ApplyBatch<S>(env: Env<S>, req: Request, conn: Connection<S>) returns (r: Result<Report, Error>)
    requires conn.begun.None?
    modifies conn
    ensures conn.begun.None? && conn.saves == []
    ensures var s := old(conn.db);
            if WouldCommit(env, req, s) && r.Ok?
            then r.value.committed && env.hook(RunFrom(env, req, 0, s).last, r.value) == (conn.db, true)
            else conn.db == s && (r.Ok? ==> !r.value.committed)
    ensures r.Ok? ==> env.branchOf(old(conn.db)).Some?
                      && ReportOn(env, req, env.branchOf(old(conn.db)).value, RunFrom(env, req, 0, old(conn.db))) == Ok((r.value, r.value.committed))
  {
    conn.Begin();
    var outcome := ApplyBatchInTx(env, req, conn);
    match outcome {
      case Err(error) =>
        conn.Rollback();
        return Err(error);
      case Ok((report, shouldCommit)) =>
        if shouldCommit {
          var (hooked, fine) := env.hook(conn.db, report);
          conn.db := hooked;
          if !fine {
            conn.Rollback();
            return Err(HookFailed);
          }
          conn.Commit();
        } else {
          conn.Rollback();
        }
        return Ok(report);
    }
  }

  /** The report and the flag of a batch that is never committed. */
  method PreviewBatch<S>(env: Env<S>, req: Request, conn: Connection<S>) returns (r: Result<(Report, bool), Error>)
    requires conn.begun.None?
    modifies conn
    ensures conn.begun.None? && conn.saves == [] && conn.db == old(conn.db)
    ensures r.Ok? ==> r.value.1 == WouldCommit(env, req, old(conn.db))
    ensures r.Err? ==> !WouldCommit(env, req, old(conn.db))
    ensures req.schemaSupported && env.branchOf(old(conn.db)).Some? ==>
              r == ReportOn(env, req, env.branchOf(old(conn.db)).value, RunFrom(env, req, 0, old(conn.db)))
  {
    conn.Begin();
    r := ApplyBatchInTx(env, req, conn);
    conn.Rollback();
  }

  // ---------------------------------------------------------------- what the outcome means

  /** Running only the operations that applied, in order, from the same state. */
  function Replay<S>(env: Env<S>, s: S, steps: seq<(string, string)>): Option<S>
    decreases |steps|
  {
    if steps == [] then Some(s)
    else
      var ran := env.run(s, steps[0].0, steps[0].1);
      if ran.outcome != Some(Applied) then None else Replay(env, ran.after, steps[1..])
  }

  /** The operations of the batch that applied, with the roots they expected. */
  function AppliedSteps<S>(env: Env<S>, req: Request, i: nat, s: S): seq<(string, string)>
    requires i <= |req.ops|
    decreases |req.ops| - i
  {
    if i == |req.ops| || !Do(env, req, i, s).Kept? then []
    else
      var once := Do(env, req, i, s);
      if once.status == Applied then
        var expected := Expected(req, i, env.branchOf(s).value.root);
        [(expected, env.parse(s, expected, req.ops[i]).value)] + AppliedSteps(env, req, i + 1, once.after)
      else AppliedSteps(env, req, i + 1, s)
  }

  /** A finished batch is the sequential fold of exactly its applied operations. */
  lemma {:induction false} FinishedIsFold<S>(env: Env<S>, req: Request, i: nat, s: S)
    requires i <= |req.ops| && RunFrom(env, req, i, s).Finished?
    ensures Replay(env, s, AppliedSteps(env, req, i, s)) == Some(RunFrom(env, req, i, s).last)
    ensures |AppliedSteps(env, req, i, s)| == CountApplied(RunFrom(env, req, i, s).statuses)
    decreases |req.ops| - i
  {
    if i < |req.ops| {
      var once := Do(env, req, i, s);
      FinishedIsFold(env, req, i + 1, once.after);
      var rest := RunFrom(env, req, i + 1, once.after).statuses;
      assert ([once.status] + rest)[1..] == rest;
      if once.status == Applied {
        var steps := AppliedSteps(env, req, i, s);
        assert steps[1..] == AppliedSteps(env, req, i + 1, once.after);
      }
    }
  }

  lemma {:induction false} AggregateMeans(statuses: seq<Status>, current: Status)
    ensures Aggregate(current, statuses) == Conflict <==> current == Conflict || Conflict in statuses
    ensures Aggregate(current, statuses) == Applied <==>
              (current == Applied || Applied in statuses) && current != Conflict && Conflict !in statuses
    decreases |statuses|
  {
    if statuses != [] {
      AggregateMeans(statuses[1..], MergeStatus(current, statuses[0]));
    }
  }

  /** A report never claims an operation that was undone: something is listed as
      applied exactly when the batch commits, and then the status says so. */
  lemma ReportIsHonest<S>(env: Env<S>, req: Request, initial: Branch, s: S)
    requires ReportOn(env, req, initial, RunFrom(env, req, 0, s)).Ok?
    ensures var (report, commit) := ReportOn(env, req, initial, RunFrom(env, req, 0, s)).value;
            && report.committed == commit
            && (commit <==> Did(Applied) in report.results)
            && (commit <==> report.status == Some(Applied))
            && (!commit ==> report.newBranch == report.oldBranch && report.applied == 0)
  {
    var end := RunFrom(env, req, 0, s);
    StopEndsInConflict(env, req, 0, s);
    AggregateMeans(end.statuses, AlreadyApplied);
    var results := ReportOn(env, req, initial, end).value.0.results;
    if end.Finished? {
      if Applied in end.statuses {
        var k :| 0 <= k < |end.statuses| && end.statuses[k] == Applied;
        assert results[k] == Did(Applied);
      }
    } else {
      assert forall k :: 0 <= k < |results| ==> results[k] != Did(Applied);
    }
  }

  lemma {:induction false} StopEndsInConflict<S>(env: Env<S>, req: Request, i: nat, s: S)
    requires i <= |req.ops|
    ensures var e := RunFrom(env, req, i, s); e.Stopped? && e.why == ByConflict ==> Conflict in e.statuses
    decreases |req.ops| - i
  {
    if i < |req.ops| && Do(env, req, i, s).Kept? && Do(env, req, i, s).status != Conflict {
      StopEndsInConflict(env, req, i + 1, Do(env, req, i, s).after);
    }
  }
}
