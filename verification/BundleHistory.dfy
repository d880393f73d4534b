/** The history a bundle carries: walked back from its head, reversed, and
    replayed from the first root by whoever imports it. A history id names its
    parent, migration and result, so ids are modelled as those very parts. */
module BundleHistory {
  import opened Wrappers
  import opened Lists

  type Root = string
  type Op = string

  datatype HistoryId = HistoryId(parent: Option<HistoryId>, migration: MigrationId, output: Root)

  datatype MigrationId =
    MigrationId(parent: Option<HistoryId>, input: Root, output: Root, op: Op, pre: string, post: string)

  /** What the store keeps; nothing forces its rows to match their ids. */
  datatype HistoryRow = HistoryRow(parent: Option<HistoryId>, migration: MigrationId, output: Root)

  datatype MigrationRow =
    MigrationRow(parent: Option<HistoryId>, input: Root, output: Root, op: Op, pre: string, post: string, agent: string)

  datatype Store = Store(histories: map<HistoryId, HistoryRow>, migrations: map<MigrationId, MigrationRow>)

  /** One migration of a bundle, in order of application. */
  datatype BundleRow = BundleRow(
    sequence: nat, migration: MigrationId, history: HistoryId, parent: Option<HistoryId>,
    input: Root, output: Root, op: Op, pre: string, post: string, agent: string)

  datatype Error = Cycle | MissingRow | BadLink | BadHistory | Conflict

  /** Applying operations and judging their conditions are parameters. */
  datatype Env = Env(
    genesis: Root,
    apply: (Root, Option<HistoryId>, Op) -> Option<Root>,
    preOf: (Root, Op) -> string,
    preHold: (Root, Op) -> bool,
    postOf: (Root, Op) -> string,
    postHold: (Root, Op) -> bool)

  // ---------------------------------------------------------------- the walk back

  /** What the store says about one history id, if its rows agree. */
  function RowFor(store: Store, id: HistoryId): Result<BundleRow, Error> {
    if id !in store.histories then Err(MissingRow)
    else
      var h := store.histories[id];
      if h.migration !in store.migrations then Err(MissingRow)
      else
        var m := store.migrations[h.migration];
        if m.parent != h.parent || m.output != h.output then Err(BadLink)
        else Ok(BundleRow(0, h.migration, id, h.parent, m.input, m.output, m.op, m.pre, m.post, m.agent))
  }

  /** A chain of rows from a parentless one to the head. */
  predicate Linked(store: Store, rows: seq<BundleRow>, head: HistoryId) {
    && rows != [] && rows[|rows| - 1].history == head && rows[0].parent == None
    && (forall i :: 0 <= i < |rows| ==> RowFor(store, rows[i].history) == Ok(rows[i]))
    && (forall i :: 0 < i < |rows| ==> rows[i].parent == Some(rows[i - 1].history))
  }

  function Reversed(rows: seq<BundleRow>): (r: seq<BundleRow>)
    ensures |r| == |rows|
    ensures forall i :: 0 <= i < |rows| ==> r[i] == rows[|rows| - 1 - i]
  {
    if rows == [] then [] else Reversed(rows[1..]) + [rows[0]]
  }

  function Numbered(rows: seq<BundleRow>): (r: seq<BundleRow>)
    ensures |r| == |rows|
  {
    seq(|rows|, i requires 0 <= i < |rows| => rows[i].(sequence := i))
  }

  /** Rows collected so far, newest first, each the parent of the one before. */
  predicate Walked(store: Store, back: seq<BundleRow>, head: HistoryId, cursor: Option<HistoryId>) {
    && (forall i :: 0 <= i < |back| ==> RowFor(store, back[i].history) == Ok(back[i]))
    && (if back == [] then cursor == Some(head) else back[0].history == head && back[|back| - 1].parent == cursor)
    && (forall i :: 0 < i < |back| ==> back[i - 1].parent == Some(back[i].history))
  }

  /** The walk follows any chain to the head step for step. */
  lemma {:induction false} WalkIsForced(store: Store, back: seq<BundleRow>, head: HistoryId, cursor: Option<HistoryId>, rows: seq<BundleRow>, i: nat)
    requires Walked(store, back, head, cursor) && Linked(store, rows, head) && i < |back|
    ensures i < |rows| && rows[|rows| - 1 - i] == back[i]
    decreases i
  {
    if i > 0 {
      WalkIsForced(store, back, head, cursor, rows, i - 1);
      assert back[i - 1].parent == Some(back[i].history);
    }
  }

  /** Where the cursor stands in any chain to the head. */
  lemma WalkPosition(store: Store, back: seq<BundleRow>, head: HistoryId, cursor: Option<HistoryId>, rows: seq<BundleRow>)
    requires Walked(store, back, head, cursor) && Linked(store, rows, head)
    ensures cursor.Some? ==> |back| < |rows| && rows[|rows| - 1 - |back|].history == cursor.value
    ensures cursor.None? ==> |back| == |rows|
  {
    if back != [] {
      WalkIsForced(store, back, head, cursor, rows, |back| - 1);
      var at := |rows| - |back|;
      assert at > 0 ==> rows[at].parent == Some(rows[at - 1].history);
    }
  }

  /** A chain never meets an id twice. */
  lemma {:induction false} ChainHasNoRepeats(store: Store, rows: seq<BundleRow>, head: HistoryId, i: nat, j: nat)
    requires Linked(store, rows, head) && i < j < |rows|
    ensures rows[i].history != rows[j].history
    decreases i
  {
    assert RowFor(store, rows[i].history) == Ok(rows[i]) && RowFor(store, rows[j].history) == Ok(rows[j]);
    assert rows[j].parent == Some(rows[j - 1].history);
    if i > 0 {
      assert rows[i].parent == Some(rows[i - 1].history);
      ChainHasNoRepeats(store, rows, head, i - 1, j - 1);
    }
  }

  function Ids(back: seq<BundleRow>): set<HistoryId> { set row | row in back :: row.history }

  method HistorySlice(store: Store, head: HistoryId) returns (r: Result<seq<BundleRow>, Error>)
    ensures r.Ok? ==> exists rows :: Linked(store, rows, head) && r.value == Numbered(rows)
    ensures forall rows: seq<BundleRow> :: Linked(store, rows, head) ==> r == Ok(Numbered(rows))
  {
    hide Linked, Walked, RowFor, Numbered, Ids;
    var cursor := Some(head);
    var back: seq<BundleRow> := [];
    var seen: set<HistoryId> := {};
    WalkStarts(store, head);
    while cursor.Some?
      invariant Walked(store, back, head, cursor)
      invariant seen == Ids(back) && seen <= store.histories.Keys
      decreases |store.histories.Keys - seen|
    {
      var id := cursor.value;
      if id in seen {
        CycleMeansNoChain(store, back, head, id);
        return Err(Cycle);
      }
      var row := RowFor(store, id);
      if row.Err? {
        DeadEndMeansNoChain(store, back, head, id);
        return Err(row.error);
      }
      WalkGoesOn(store, back, head, id);
      Shrinks(store.histories.Keys, seen, id);
      seen := seen + {id};
      back := back + [row.value];
      cursor := row.value.parent;
    }
    ReversedIsLinked(store, back, head);
    forall chain | Linked(store, chain, head)
      ensures chain == Reversed(back)
    {
      ChainIsUnique(store, back, head, chain);
    }
    return Ok(Numbered(Reversed(back)));
  }

  lemma WalkStarts(store: Store, head: HistoryId)
    ensures Walked(store, [], head, Some(head)) && Ids([]) == {}
  {
  }

  lemma WalkGoesOn(store: Store, back: seq<BundleRow>, head: HistoryId, id: HistoryId)
    requires Walked(store, back, head, Some(id)) && RowFor(store, id).Ok?
    ensures Walked(store, back + [RowFor(store, id).value], head, RowFor(store, id).value.parent)
    ensures Ids(back + [RowFor(store, id).value]) == Ids(back) + {id} && id in store.histories
  {
  }

  lemma CycleMeansNoChain(store: Store, back: seq<BundleRow>, head: HistoryId, id: HistoryId)
    requires Walked(store, back, head, Some(id)) && id in Ids(back)
    ensures forall rows: seq<BundleRow> :: !Linked(store, rows, head)
  {
    hide Walked, Linked;
    var k :| 0 <= k < |back| && back[k].history == id;
    forall rows: seq<BundleRow>
      ensures !Linked(store, rows, head)
    {
      if Linked(store, rows, head) {
        WalkPosition(store, back, head, Some(id), rows);
        WalkIsForced(store, back, head, Some(id), rows, k);
        ChainHasNoRepeats(store, rows, head, |rows| - 1 - |back|, |rows| - 1 - k);
      }
    }
  }

  lemma DeadEndMeansNoChain(store: Store, back: seq<BundleRow>, head: HistoryId, id: HistoryId)
    requires Walked(store, back, head, Some(id)) && RowFor(store, id).Err?
    ensures forall rows: seq<BundleRow> :: !Linked(store, rows, head)
  {
    hide RowFor;
    forall rows: seq<BundleRow>
      ensures !Linked(store, rows, head)
    {
      if Linked(store, rows, head) {
        WalkPosition(store, back, head, Some(id), rows);
      }
    }
  }

  lemma ReversedIsLinked(store: Store, back: seq<BundleRow>, head: HistoryId)
    requires Walked(store, back, head, None)
    ensures Linked(store, Reversed(back), head)
  {
    var rows := Reversed(back);
    forall i | 0 < i < |rows|
      ensures rows[i].parent == Some(rows[i - 1].history)
    {
      assert back[|back| - 1 - i].parent == Some(back[|back| - i].history);
    }
  }

  lemma ChainIsUnique(store: Store, back: seq<BundleRow>, head: HistoryId, chain: seq<BundleRow>)
    requires Walked(store, back, head, None) && Linked(store, chain, head)
    ensures chain == Reversed(back)
  {
    WalkPosition(store, back, head, None, chain);
    forall i | 0 <= i < |chain|
      ensures chain[i] == Reversed(back)[i]
    {
      WalkIsForced(store, back, head, None, chain, |chain| - 1 - i);
    }
  }

  // ---------------------------------------------------------------- replay

  datatype Position = Position(root: Root, history: Option<HistoryId>)

  /** Whether a row is what committing its operation here would record. */
  predicate Admissible(env: Env, at: Position, row: BundleRow, sequence: nat) {
    && row.sequence == sequence && row.parent == at.history && row.input == at.root
    && row.migration == MigrationId(at.history, at.root, row.output, row.op, row.pre, row.post)
    && row.pre == env.preOf(at.root, row.op) && env.preHold(at.root, row.op)
    && env.apply(at.root, at.history, row.op) == Some(row.output)
    && row.post == env.postOf(row.output, row.op) && env.postHold(row.output, row.op)
    && row.history == HistoryId(at.history, row.migration, row.output)
  }

  function HistoryOf(row: BundleRow): HistoryRow { HistoryRow(row.parent, row.migration, row.output) }

  function MigrationOf(row: BundleRow): MigrationRow {
    MigrationRow(row.parent, row.input, row.output, row.op, row.pre, row.post, row.agent)
  }

  /** An existing row must be the same. */
  predicate Compatible(store: Store, row: BundleRow) {
    && (row.migration in store.migrations ==> store.migrations[row.migration] == MigrationOf(row))
    && (row.history in store.histories ==> store.histories[row.history] == HistoryOf(row))
  }

  function Inserted(store: Store, row: BundleRow): Store {
    Store(store.histories[row.history := HistoryOf(row)], store.migrations[row.migration := MigrationOf(row)])
  }

  /** Every row admissible where it stands, and none in conflict with the store. */
  predicate Replays(env: Env, store: Store, at: Position, rows: seq<BundleRow>, sequence: nat)
    decreases |rows|
  {
    rows != [] ==>
      && Admissible(env, at, rows[0], sequence) && Compatible(store, rows[0])
      && Replays(env, Inserted(store, rows[0]), Position(rows[0].output, Some(rows[0].history)), rows[1..], sequence + 1)
  }

  function EndOf(at: Position, rows: seq<BundleRow>): Position {
    if rows == [] then at else Position(rows[|rows| - 1].output, Some(rows[|rows| - 1].history))
  }

  function InsertedAll(store: Store, rows: seq<BundleRow>): Store
    decreases |rows|
  {
    if rows == [] then store else InsertedAll(Inserted(store, rows[0]), rows[1..])
  }

  class Importer {
    const env: Env
    var store: Store
    var root: Root
    var history: Option<HistoryId>

    constructor (env: Env, store: Store)
      ensures this.env == env && this.store == store && At() == Position(env.genesis, None)
    {
      this.env := env;
      this.store := store;
      root, history := env.genesis, None;
    }

    function At(): Position
      reads this
    {
      Position(root, history)
    }

    method ValidateAndInsert(expected: nat, row: BundleRow) returns (r: Result<(), Error>)
      modifies this
      ensures r.Ok? <==> Admissible(env, old(At()), row, expected) && Compatible(old(store), row)
      ensures r.Ok? ==> At() == Position(row.output, Some(row.history)) && store == Inserted(old(store), row)
      ensures r.Err? ==> At() == old(At())
    {
      if row.sequence != expected || row.parent != history || row.input != root {
        return Err(BadHistory);
      }
      if MigrationId(history, root, row.output, row.op, row.pre, row.post) != row.migration {
        return Err(BadHistory);
      }
      if env.preOf(root, row.op) != row.pre || !env.preHold(root, row.op) {
        return Err(BadHistory);
      }
      var produced := env.apply(root, history, row.op);
      if produced != Some(row.output) {
        return Err(BadHistory);
      }
      if env.postOf(row.output, row.op) != row.post || !env.postHold(row.output, row.op) {
        return Err(BadHistory);
      }
      if HistoryId(history, row.migration, row.output) != row.history {
        return Err(BadHistory);
      }
      var _ :- InsertMigrationRow(row);
      root, history := row.output, Some(row.history);
      return Ok(());
    }

    method InsertMigrationRow(row: BundleRow) returns (r: Result<(), Error>)
      modifies this`store
      ensures r.Ok? <==> Compatible(old(store), row)
      ensures r.Ok? ==> store == Inserted(old(store), row)
    {
      if row.migration in store.migrations {
        if store.migrations[row.migration] != MigrationOf(row) {
          return Err(Conflict);
        }
        assert store.migrations[row.migration := MigrationOf(row)] == store.migrations;
      } else {
        store := store.(migrations := store.migrations[row.migration := MigrationOf(row)]);
      }
      if row.history in store.histories {
        if store.histories[row.history] != HistoryOf(row) {
          return Err(Conflict);
        }
        assert store.histories[row.history := HistoryOf(row)] == store.histories;
      } else {
        store := store.(histories := store.histories[row.history := HistoryOf(row)]);
      }
      return Ok(());
    }

    /** The replay loop from the first root. */
    method Replay(rows: seq<BundleRow>) returns (r: Result<(), Error>)
      requires At() == Position(env.genesis, None)
      modifies this
      ensures r.Ok? <==> Replays(env, old(store), Position(env.genesis, None), rows, 0)
      ensures r.Ok? ==> At() == EndOf(Position(env.genesis, None), rows) && store == InsertedAll(old(store), rows)
    {
      var i := 0;
      while i < |rows|
        invariant 0 <= i <= |rows|
        invariant Replays(env, old(store), Position(env.genesis, None), rows, 0) <==> Replays(env, store, At(), rows[i..], i)
        invariant At() == EndOf(Position(env.genesis, None), rows[..i])
        invariant InsertedAll(old(store), rows) == InsertedAll(store, rows[i..])
      {
        assert rows[i..][0] == rows[i] && rows[i..][1..] == rows[i + 1..];
        assert rows[..i + 1] == rows[..i] + [rows[i]];
        var _ :- ValidateAndInsert(i, rows[i]);
        i := i + 1;
      }
      assert rows[..i] == rows;
      return Ok(());
    }
  }
}

/** What export and import guarantee together. */
module BundleHistoryLaws {
  import opened Wrappers
  import opened BundleHistory

  /** Two admissible rows with the same id and result stood at the same place. */
  lemma SameRow(env: Env, a: Position, b: Position, p: BundleRow, q: BundleRow, i: nat, j: nat)
    requires Admissible(env, a, p, i) && Admissible(env, b, q, j) && p.history == q.history && p.output == q.output
    ensures a == b && p == q.(agent := p.agent, sequence := i) && p.sequence == i && q.sequence == j
  {
  }

  /** Rows that replay are a function of the id they end at: the head names the
      whole history. */
  lemma {:induction false} HeadDeterminesHistory(env: Env, s: Store, t: Store, p: seq<BundleRow>, q: seq<BundleRow>)
    requires Replays(env, s, Position(env.genesis, None), p, 0) && Replays(env, t, Position(env.genesis, None), q, 0)
    requires EndOf(Position(env.genesis, None), p) == EndOf(Position(env.genesis, None), q)
    ensures |p| == |q| && forall i :: 0 <= i < |p| ==> p[i] == q[i].(agent := p[i].agent)
    decreases |p|
  {
    hide Replays, Admissible;
    var start := Position(env.genesis, None);
    if p != [] && q != [] {
      var i, j := |p| - 1, |q| - 1;
      ReplaysPrefix(env, s, start, p, 0, i);
      ReplaysPrefix(env, t, start, q, 0, j);
      SameRow(env, EndOf(start, p[..i]), EndOf(start, q[..j]), p[i], q[j], i, j);
      HeadDeterminesHistory(env, s, t, p[..i], q[..j]);
      forall k | 0 <= k < |p|
        ensures p[k] == q[k].(agent := p[k].agent)
      {
        if k < i {
          assert p[k] == p[..i][k] && q[k] == q[..j][k];
        }
      }
    }
  }

  /** A replayed prefix replays, and the next row is admissible after it. */
  lemma {:induction false} ReplaysPrefix(env: Env, s: Store, at: Position, rows: seq<BundleRow>, sequence: nat, i: nat)
    requires Replays(env, s, at, rows, sequence) && i < |rows|
    ensures Replays(env, s, at, rows[..i], sequence)
    ensures Admissible(env, EndOf(at, rows[..i]), rows[i], sequence + i)
    decreases i
  {
    if i > 0 {
      var next := Position(rows[0].output, Some(rows[0].history));
      ReplaysPrefix(env, Inserted(s, rows[0]), next, rows[1..], sequence + 1, i - 1);
      assert rows[..i][1..] == rows[1..][..i - 1] && rows[1..][i - 1] == rows[i];
      if i > 1 {
        assert EndOf(next, rows[1..][..i - 1]) == EndOf(at, rows[..i]);
      } else {
        assert rows[1..][..0] == [] && rows[..1] == [rows[0]];
      }
    }
  }

  // ---------------------------------------------------------------- committing

  /** What trying to commit an operation comes to. Only `Applied` records a row:
      an operation that gives the root it started from is already applied, and
      `Refused` stands for every answer or error before that. */
  datatype Outcome = Applied(row: BundleRow) | AlreadyApplied | Refused

  function Commit(env: Env, at: Position, op: Op, agent: string, sequence: nat): Outcome {
    if !env.preHold(at.root, op) then Refused
    else
      match env.apply(at.root, at.history, op)
      case None => Refused
      case Some(output) =>
        if !env.postHold(output, op) then Refused
        else if output == at.root then AlreadyApplied
        else
          var pre, post := env.preOf(at.root, op), env.postOf(output, op);
          var migration := MigrationId(at.history, at.root, output, op, pre, post);
          Applied(BundleRow(sequence, migration, HistoryId(at.history, migration, output), at.history, at.root, output, op, pre, post, agent))
  }

  /** The rows that trying one operation after the other records. */
  function CommitAll(env: Env, at: Position, ops: seq<(Op, string)>, sequence: nat): (r: seq<BundleRow>)
    ensures |r| <= |ops|
    decreases |ops|
  {
    if ops == [] then []
    else
      match Commit(env, at, ops[0].0, ops[0].1, sequence)
      case Applied(row) => [row] + CommitAll(env, Position(row.output, Some(row.history)), ops[1..], sequence + 1)
      case _ => CommitAll(env, at, ops[1..], sequence)
  }

  /** Replay admits what committing records, and besides it only rows that leave
      the root as it was, which committing never records. */
  lemma AdmittedExactlyWhenCommitted(env: Env, at: Position, row: BundleRow, sequence: nat)
    ensures Admissible(env, at, row, sequence) && row.output != at.root
            <==> Commit(env, at, row.op, row.agent, sequence) == Applied(row)
    ensures Admissible(env, at, row, sequence) && row.output == at.root
            ==> Commit(env, at, row.op, row.agent, sequence) == AlreadyApplied
  {
  }

  /** No row leaves the root as it was. */
  predicate Moves(rows: seq<BundleRow>) { forall i :: 0 <= i < |rows| ==> rows[i].output != rows[i].input }

  function OpsOf(rows: seq<BundleRow>): (r: seq<(Op, string)>)
    ensures |r| == |rows|
  {
    seq(|rows|, i requires 0 <= i < |rows| => (rows[i].op, rows[i].agent))
  }

  /** How long the chain named by an id is. */
  function Depth(history: Option<HistoryId>): nat {
    match history
    case None => 0
    case Some(id) => 1 + Depth(id.parent)
  }

  /** No stored id is as deep as the position or deeper. */
  predicate Below(store: Store, at: Position) {
    && (forall id :: id in store.histories ==> Depth(Some(id)) <= Depth(at.history))
    && (forall id :: id in store.migrations ==> Depth(id.parent) < Depth(at.history))
  }

  lemma RowGoesBelow(env: Env, store: Store, at: Position, row: BundleRow, sequence: nat)
    requires Below(store, at) && Admissible(env, at, row, sequence)
    ensures Compatible(store, row) && Below(Inserted(store, row), Position(row.output, Some(row.history)))
  {
  }

  /** Committed rows replay on any store that holds nothing newer. */
  lemma {:induction false} CommittedReplays(env: Env, store: Store, at: Position, ops: seq<(Op, string)>, sequence: nat)
    requires Below(store, at)
    ensures Replays(env, store, at, CommitAll(env, at, ops, sequence), sequence)
    ensures Moves(CommitAll(env, at, ops, sequence))
    decreases |ops|
  {
    hide Below, Compatible, Admissible, Commit;
    if ops != [] {
      var outcome := Commit(env, at, ops[0].0, ops[0].1, sequence);
      if outcome.Applied? {
        var row := outcome.row;
        var next := Position(row.output, Some(row.history));
        var rest := CommitAll(env, next, ops[1..], sequence + 1);
        assert ([row] + rest)[1..] == rest;
        CommittedIsAdmissible(env, at, ops[0].0, ops[0].1, sequence);
        RowGoesBelow(env, store, at, row, sequence);
        CommittedReplays(env, Inserted(store, row), next, ops[1..], sequence + 1);
      } else {
        CommittedReplays(env, store, at, ops[1..], sequence);
      }
    }
  }

  lemma CommittedIsAdmissible(env: Env, at: Position, op: Op, agent: string, sequence: nat)
    requires Commit(env, at, op, agent, sequence).Applied?
    ensures var row := Commit(env, at, op, agent, sequence).row;
            Admissible(env, at, row, sequence) && row.output != row.input && row.op == op && row.agent == agent
  {
  }

  lemma AdmissibleInput(env: Env, at: Position, row: BundleRow, sequence: nat)
    requires Admissible(env, at, row, sequence)
    ensures row.input == at.root
  {
  }

  /** Replay accepts a row list exactly when committing its operations records
      that very list, but for rows that leave the root as it was. */
  lemma {:induction false} ReplaysExactlyCommits(env: Env, store: Store, at: Position, rows: seq<BundleRow>, sequence: nat)
    requires Below(store, at)
    ensures Replays(env, store, at, rows, sequence) && Moves(rows) <==> CommitAll(env, at, OpsOf(rows), sequence) == rows
    decreases |rows|
  {
    hide Below, Compatible, Admissible, Commit;
    if CommitAll(env, at, OpsOf(rows), sequence) == rows {
      CommittedReplays(env, store, at, OpsOf(rows), sequence);
    }
    if Replays(env, store, at, rows, sequence) && Moves(rows) && rows != [] {
      var next := Position(rows[0].output, Some(rows[0].history));
      RowGoesBelow(env, store, at, rows[0], sequence);
      AdmissibleInput(env, at, rows[0], sequence);
      AdmittedExactlyWhenCommitted(env, at, rows[0], sequence);
      ReplaysExactlyCommits(env, Inserted(store, rows[0]), next, rows[1..], sequence + 1);
      assert OpsOf(rows)[1..] == OpsOf(rows[1..]);
    }
  }

  // ---------------------------------------------------------------- export undoes import

  /** Rows stand in the store under their own ids. */
  predicate Stands(store: Store, row: BundleRow) {
    && row.history in store.histories && store.histories[row.history] == HistoryOf(row)
    && row.migration in store.migrations && store.migrations[row.migration] == MigrationOf(row)
  }

  /** Replaying never disturbs a row that already stands. */
  lemma {:induction false} ReplayKeeps(env: Env, store: Store, at: Position, rows: seq<BundleRow>, sequence: nat, row: BundleRow)
    requires Replays(env, store, at, rows, sequence) && Stands(store, row)
    ensures Stands(InsertedAll(store, rows), row)
    decreases |rows|
  {
    if rows != [] {
      ReplayKeeps(env, Inserted(store, rows[0]), Position(rows[0].output, Some(rows[0].history)), rows[1..], sequence + 1, row);
    }
  }

  lemma {:induction false} ReplayedStand(env: Env, store: Store, at: Position, rows: seq<BundleRow>, sequence: nat, i: nat)
    requires Replays(env, store, at, rows, sequence) && i < |rows|
    ensures Stands(InsertedAll(store, rows), rows[i])
    decreases i
  {
    var next := Position(rows[0].output, Some(rows[0].history));
    if i == 0 {
      ReplayKeeps(env, Inserted(store, rows[0]), next, rows[1..], sequence + 1, rows[0]);
    } else {
      ReplayedStand(env, Inserted(store, rows[0]), next, rows[1..], sequence + 1, i - 1);
    }
  }

  function Unnumbered(rows: seq<BundleRow>): (r: seq<BundleRow>)
    ensures |r| == |rows|
  {
    seq(|rows|, i requires 0 <= i < |rows| => rows[i].(sequence := 0))
  }

  /** The rows an import replayed are a chain of the store it leaves, so walking
      back from its head exports exactly what was imported. */
  lemma ImportThenExport(env: Env, store: Store, rows: seq<BundleRow>)
    requires rows != [] && Replays(env, store, Position(env.genesis, None), rows, 0)
    ensures Linked(InsertedAll(store, rows), Unnumbered(rows), rows[|rows| - 1].history)
    ensures Numbered(Unnumbered(rows)) == rows
  {
    var start, after := Position(env.genesis, None), InsertedAll(store, rows);
    forall i | 0 <= i < |rows|
      ensures RowFor(after, Unnumbered(rows)[i].history) == Ok(Unnumbered(rows)[i])
      ensures rows[i].sequence == i
      ensures rows[i].parent == if i == 0 then None else Some(rows[i - 1].history)
    {
      ReplayedStand(env, store, start, rows, 0, i);
      ReplaysPrefix(env, store, start, rows, 0, i);
    }
  }

  /** Whatever operations are tried from the first root, the rows they record are
      exported by the walk back from their head and accepted by replay into an
      empty store. */
  lemma CommittedHistoryRoundTrips(env: Env, ops: seq<(Op, string)>)
    ensures var rows := CommitAll(env, Position(env.genesis, None), ops, 0);
            && Replays(env, Store(map[], map[]), Position(env.genesis, None), rows, 0)
            && Numbered(Unnumbered(rows)) == rows
            && (rows != [] ==> Linked(InsertedAll(Store(map[], map[]), rows), Unnumbered(rows), rows[|rows| - 1].history))
  {
    var rows := CommitAll(env, Position(env.genesis, None), ops, 0);
    CommittedReplays(env, Store(map[], map[]), Position(env.genesis, None), ops, 0);
    if rows != [] {
      ImportThenExport(env, Store(map[], map[]), rows);
    }
  }
}
