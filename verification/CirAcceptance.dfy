/** What acceptance by the decoder implies: every reference an operation makes,
    however deeply nested, was resolved in the tables the file stores, every
    call is to a function of the file, and stored derived columns are as they
    would be recomputed. */
module CirAcceptance {
  import opened Wrappers
  import opened Traversal
  import opened CirBytes
  import opened CirIr
  import opened CirDecode
  import opened CirFunction
  import opened CirFile
  import opened CirFileRoundTrip

  /** A field of the kind its position calls for, with every reference in scope. */
  predicate Resolved(env: Env, scope: Scope, k: Kind, f: Field)
    decreases f
  {
    match (k, f)
    case (KValueId, ValueId(id)) => id in scope.values
    case (KTypeHash, TypeHash(hash)) => hash in scope.types
    case (KStr, Str(text)) => text in scope.strings
    case (KOptStr, OptStr(text)) => text.Some? ==> text.value in scope.strings
    case (KOptValueId, OptValueId(id)) => id.Some? ==> id.value in scope.values
    case (KU8, U8(_)) => true
    case (KU32, U32(word)) => word < U32_LIMIT
    case (KU64, U64(wide)) => wide < U64_LIMIT
    case (KFlag, Flag(_)) => true
    case (KSlot, Slot(slot)) => slot < U32_LIMIT
    case (KOperator, Operator(opKind)) => opKind in scope.strings && env.operatorColumns(opKind).Some?
    case (KTrap, Trap(trap)) => trap.Some? ==> trap.value.0 in scope.strings && trap.value.1 in scope.strings
    case (KIntText, IntText(_)) => true
    case (KHex, Hex(text)) => exists i :: 0 <= i < |scope.data| && text == BytesToHex(scope.data[i])
    case (KCallTarget, CallTarget(symbol)) => symbol in scope.symbols
    case (KPlace, Place(placeKind, fields)) =>
      ReadPlaceShape(placeKind).Some? && ResolvedAll(env, scope, ReadPlaceShape(placeKind).value, fields)
    case (KBlock, Block(operations, result)) => ResolvedOps(env, scope, operations) && result in scope.values
    case (KOps, Ops(ops)) => ResolvedOps(env, scope, ops)
    case (KRows(row), Rows(rows)) => ResolvedRows(env, scope, row, rows)
    case _ => false
  }

  predicate ResolvedAll(env: Env, scope: Scope, shape: seq<Kind>, fields: seq<Field>)
    decreases fields
  {
    |shape| == |fields| && forall i :: 0 <= i < |fields| ==> Resolved(env, scope, shape[i], fields[i])
  }

  predicate ResolvedRows(env: Env, scope: Scope, shape: seq<Kind>, rows: seq<Row>)
    decreases rows
  {
    forall i :: 0 <= i < |rows| ==> ResolvedAll(env, scope, shape, rows[i].fields)
  }

  predicate ResolvedOps(env: Env, scope: Scope, ops: seq<Op>)
    decreases ops
  {
    forall i :: 0 <= i < |ops| ==> ReadShape(ops[i].code).Some? && ResolvedAll(env, scope, ReadShape(ops[i].code).value, ops[i].fields)
  }

  // ---------------------------------------------------------------- decoding resolves

  lemma LookupIsMember<T>(table: seq<T>, s: seq<Byte>)
    ensures Lookup(table, s).Got? ==> Lookup(table, s).value in table
  {
  }

  lemma ReadLeFits(k: nat, s: seq<Byte>)
    ensures ReadLe(k, s).Got? ==> ReadLe(k, s).value < Pow256(k)
  {
    if ReadLe(k, s).Got? {
      FromLeBound(s[..k]);
    }
  }

  lemma {:induction false} LeafResolves(env: Env, scope: Scope, k: Kind, s: seq<Byte>)
    requires DecodeLeaf(env, scope, k, s).Got?
    ensures Resolved(env, scope, k, DecodeLeaf(env, scope, k, s).value)
  {
    if k.KOptStr? || k.KTrap? || k.KOptValueId? || k.KOperator? {
      CompoundResolves(env, scope, k, s);
    } else {
      hide ResolvedAll, ResolvedRows, ResolvedOps, Decimal, I64Value, BytesToHex, ReadLe, ReadBytes;
      Widths();
      ReadLeFits(4, s);
      ReadLeFits(8, s);
      LookupIsMember(scope.data, s);
    }
  }

  lemma {:induction false} CompoundResolves(env: Env, scope: Scope, k: Kind, s: seq<Byte>)
    requires DecodeLeaf(env, scope, k, s).Got? && (k.KOptStr? || k.KTrap? || k.KOptValueId? || k.KOperator?)
    ensures Resolved(env, scope, k, DecodeLeaf(env, scope, k, s).value)
  {
    hide ResolvedAll, ResolvedRows, ResolvedOps, Lookup, ReadLe;
    LookupIsMember(scope.strings, s);
    if k.KOptStr? || k.KTrap? {
      LookupIsMember(scope.strings, s[1..]);
      if Lookup(scope.strings, s[1..]).Got? {
        LookupIsMember(scope.strings, Lookup(scope.strings, s[1..]).rest);
      }
    } else if k.KOptValueId? {
      LookupIsMember(scope.values, s[1..]);
    }
  }

  lemma {:induction false} FieldResolves(env: Env, scope: Scope, k: Kind, s: seq<Byte>)
    requires DecodeField(env, scope, k, s).Got?
    ensures Resolved(env, scope, k, DecodeField(env, scope, k, s).value)
    decreases |s|, 0, 0
  {
    hide DecodeLeaf, DecodeFields, DecodeRows, DecodeOps, ReadLe, Lookup;
    match k
    case KPlace =>
      var (placeKind, s1) := ReadByte(s).Extract();
      FieldsResolve(env, scope, ReadPlaceShape(placeKind).value, s1);
    case KBlock =>
      var (n, s1) := ReadLe(4, s).Extract();
      OpsResolve(env, scope, n, s1);
      LookupIsMember(scope.values, DecodeOps(env, scope, n, s1).rest);
    case KOps =>
      var (n, s1) := ReadLe(4, s).Extract();
      OpsResolve(env, scope, n, s1);
    case KRows(row) =>
      var (n, s1) := ReadLe(4, s).Extract();
      RowsResolve(env, scope, row, n, s1);
    case _ => LeafResolves(env, scope, k, s);
  }

  lemma {:induction false} FieldsResolve(env: Env, scope: Scope, shape: seq<Kind>, s: seq<Byte>)
    requires DecodeFields(env, scope, shape, s).Got?
    ensures ResolvedAll(env, scope, shape, DecodeFields(env, scope, shape, s).value)
    decreases |s|, 1, |shape|
  {
    hide DecodeField, Resolved;
    if shape != [] {
      FieldResolves(env, scope, shape[0], s);
      var (f, s1) := DecodeField(env, scope, shape[0], s).Extract();
      FieldsResolve(env, scope, shape[1..], s1);
    }
  }

  lemma {:induction false} RowsResolve(env: Env, scope: Scope, shape: seq<Kind>, n: nat, s: seq<Byte>)
    requires DecodeRows(env, scope, shape, n, s).Got?
    ensures ResolvedRows(env, scope, shape, DecodeRows(env, scope, shape, n, s).value)
    decreases |s|, 2, n
  {
    hide DecodeFields, ResolvedAll;
    if n > 0 {
      FieldsResolve(env, scope, shape, s);
      var (fields, s1) := DecodeFields(env, scope, shape, s).Extract();
      RowsResolve(env, scope, shape, n - 1, s1);
    }
  }

  lemma {:induction false} OpsResolve(env: Env, scope: Scope, n: nat, s: seq<Byte>)
    requires DecodeOps(env, scope, n, s).Got?
    ensures ResolvedOps(env, scope, DecodeOps(env, scope, n, s).value)
    decreases |s|, 2, n
  {
    hide DecodeFields, ResolvedAll, ReadShape;
    if n > 0 {
      var (code, s1) := ReadByte(s).Extract();
      FieldsResolve(env, scope, ReadShape(code).value, s1);
      var (fields, s2) := DecodeFields(env, scope, ReadShape(code).value, s1).Extract();
      OpsResolve(env, scope, n - 1, s2);
    }
  }

  // ---------------------------------------------------------------- stored operator columns

  /** An operator kind as the file names it, and the three column bytes stored behind it. */
  datatype Stored = Stored(opKind: Text, first: Byte, second: Byte, third: Byte)

  predicate Recomputes(env: Env, x: Stored) {
    env.operatorColumns(x.opKind) == Some((x.first, x.second, x.third))
  }

  /** The operator entries in the bytes of a field, in order, as stored. */
  function StoredInField(env: Env, scope: Scope, k: Kind, s: seq<Byte>): seq<Stored>
    requires DecodeField(env, scope, k, s).Got?
    decreases |s|, 0, 0
  {
    match k
    case KOperator =>
      var (opKind, s1) := Lookup(scope.strings, s).Extract();
      [Stored(opKind, s1[0], s1[1], s1[2])]
    case KPlace =>
      var (placeKind, s1) := ReadByte(s).Extract();
      StoredInFields(env, scope, ReadPlaceShape(placeKind).value, s1)
    case KBlock =>
      var (n, s1) := ReadLe(4, s).Extract();
      StoredInOps(env, scope, n, s1)
    case KOps =>
      var (n, s1) := ReadLe(4, s).Extract();
      StoredInOps(env, scope, n, s1)
    case KRows(row) =>
      var (n, s1) := ReadLe(4, s).Extract();
      StoredInRows(env, scope, row, n, s1)
    case _ => []
  }

  function StoredInFields(env: Env, scope: Scope, shape: seq<Kind>, s: seq<Byte>): seq<Stored>
    requires DecodeFields(env, scope, shape, s).Got?
    decreases |s|, 1, |shape|
  {
    if shape == [] then []
    else
      StoredInField(env, scope, shape[0], s)
      + StoredInFields(env, scope, shape[1..], DecodeField(env, scope, shape[0], s).rest)
  }

  function StoredInRows(env: Env, scope: Scope, shape: seq<Kind>, n: nat, s: seq<Byte>): seq<Stored>
    requires DecodeRows(env, scope, shape, n, s).Got?
    decreases |s|, 2, n
  {
    if n == 0 then []
    else
      StoredInFields(env, scope, shape, s)
      + StoredInRows(env, scope, shape, n - 1, DecodeFields(env, scope, shape, s).rest)
  }

  function StoredInOps(env: Env, scope: Scope, n: nat, s: seq<Byte>): seq<Stored>
    requires DecodeOps(env, scope, n, s).Got?
    decreases |s|, 2, n
  {
    if n == 0 then []
    else
      var (code, s1) := ReadByte(s).Extract();
      var shape := ReadShape(code).value;
      StoredInFields(env, scope, shape, s1) + StoredInOps(env, scope, n - 1, DecodeFields(env, scope, shape, s1).rest)
  }

  /** The operator kinds of a decoded field, in the same order. */
  function OperatorsOfField(f: Field): seq<Text>
    decreases f
  {
    match f
    case Operator(opKind) => [opKind]
    case Place(_, fields) => OperatorsOfFields(fields)
    case Block(operations, _) => OperatorsOfOps(operations)
    case Ops(ops) => OperatorsOfOps(ops)
    case Rows(rows) => OperatorsOfRows(rows)
    case _ => []
  }

  function OperatorsOfFields(fields: seq<Field>): seq<Text>
    decreases fields
  {
    if fields == [] then [] else OperatorsOfField(fields[0]) + OperatorsOfFields(fields[1..])
  }

  function OperatorsOfRows(rows: seq<Row>): seq<Text>
    decreases rows
  {
    if rows == [] then [] else OperatorsOfFields(rows[0].fields) + OperatorsOfRows(rows[1..])
  }

  function OperatorsOfOps(ops: seq<Op>): seq<Text>
    decreases ops
  {
    if ops == [] then [] else OperatorsOfFields(ops[0].fields) + OperatorsOfOps(ops[1..])
  }

  /** One stored entry per operator, each with the columns of its kind. */
  predicate Checked(env: Env, stored: seq<Stored>, kinds: seq<Text>) {
    && |stored| == |kinds|
    && forall i :: 0 <= i < |stored| ==> stored[i].opKind == kinds[i] && Recomputes(env, stored[i])
  }

  lemma CheckedTogether(env: Env, a: seq<Stored>, b: seq<Text>, c: seq<Stored>, d: seq<Text>)
    requires Checked(env, a, b) && Checked(env, c, d)
    ensures Checked(env, a + c, b + d)
  {
  }

  lemma {:induction false} FieldColumns(env: Env, scope: Scope, k: Kind, s: seq<Byte>)
    requires DecodeField(env, scope, k, s).Got?
    ensures Checked(env, StoredInField(env, scope, k, s), OperatorsOfField(DecodeField(env, scope, k, s).value))
    decreases |s|, 0, 0
  {
    hide DecodeLeaf, DecodeFields, DecodeRows, DecodeOps, ReadLe, Lookup, StoredInFields, StoredInRows, StoredInOps,
         OperatorsOfFields, OperatorsOfRows, OperatorsOfOps;
    match k
    case KPlace =>
      var (placeKind, s1) := ReadByte(s).Extract();
      FieldsColumns(env, scope, ReadPlaceShape(placeKind).value, s1);
    case KBlock =>
      var (n, s1) := ReadLe(4, s).Extract();
      OpsColumns(env, scope, n, s1);
    case KOps =>
      var (n, s1) := ReadLe(4, s).Extract();
      OpsColumns(env, scope, n, s1);
    case KRows(row) =>
      var (n, s1) := ReadLe(4, s).Extract();
      RowsColumns(env, scope, row, n, s1);
    case _ => LeafColumns(env, scope, k, s);
  }

  lemma LeafColumns(env: Env, scope: Scope, k: Kind, s: seq<Byte>)
    requires DecodeLeaf(env, scope, k, s).Got?
    ensures OperatorsOfField(DecodeLeaf(env, scope, k, s).value) == if k.KOperator? then [Lookup(scope.strings, s).value] else []
    ensures k.KOperator? ==> Lookup(scope.strings, s).Got? && |Lookup(scope.strings, s).rest| >= 3
    ensures k.KOperator? ==> var s1 := Lookup(scope.strings, s).rest;
                             Recomputes(env, Stored(Lookup(scope.strings, s).value, s1[0], s1[1], s1[2]))
  {
    hide Lookup, ReadLe;
  }

  lemma {:induction false} FieldsColumns(env: Env, scope: Scope, shape: seq<Kind>, s: seq<Byte>)
    requires DecodeFields(env, scope, shape, s).Got?
    ensures Checked(env, StoredInFields(env, scope, shape, s), OperatorsOfFields(DecodeFields(env, scope, shape, s).value))
    decreases |s|, 1, |shape|
  {
    hide DecodeField, StoredInField, OperatorsOfField, Checked;
    if shape == [] {
      NothingStored(env);
    } else {
      var (f, s1) := DecodeField(env, scope, shape[0], s).Extract();
      var fs := DecodeFields(env, scope, shape[1..], s1).value;
      FieldColumns(env, scope, shape[0], s);
      FieldsColumns(env, scope, shape[1..], s1);
      assert ([f] + fs)[1..] == fs;
      CheckedTogether(env, StoredInField(env, scope, shape[0], s), OperatorsOfField(f),
                      StoredInFields(env, scope, shape[1..], s1), OperatorsOfFields(fs));
    }
  }

  lemma NothingStored(env: Env)
    ensures Checked(env, [], [])
  {
  }

  lemma {:induction false} RowsColumns(env: Env, scope: Scope, shape: seq<Kind>, n: nat, s: seq<Byte>)
    requires DecodeRows(env, scope, shape, n, s).Got?
    ensures Checked(env, StoredInRows(env, scope, shape, n, s), OperatorsOfRows(DecodeRows(env, scope, shape, n, s).value))
    decreases |s|, 2, n
  {
    hide DecodeFields, StoredInFields, OperatorsOfFields, Checked;
    if n == 0 {
      NothingStored(env);
    } else {
      var (fields, s1) := DecodeFields(env, scope, shape, s).Extract();
      var rows := DecodeRows(env, scope, shape, n - 1, s1).value;
      FieldsColumns(env, scope, shape, s);
      RowsColumns(env, scope, shape, n - 1, s1);
      assert ([Row(fields)] + rows)[1..] == rows;
      CheckedTogether(env, StoredInFields(env, scope, shape, s), OperatorsOfFields(fields),
                      StoredInRows(env, scope, shape, n - 1, s1), OperatorsOfRows(rows));
    }
  }

  lemma {:induction false} OpsColumns(env: Env, scope: Scope, n: nat, s: seq<Byte>)
    requires DecodeOps(env, scope, n, s).Got?
    ensures Checked(env, StoredInOps(env, scope, n, s), OperatorsOfOps(DecodeOps(env, scope, n, s).value))
    decreases |s|, 2, n
  {
    hide DecodeFields, StoredInFields, OperatorsOfFields, Checked, ReadShape;
    if n == 0 {
      NothingStored(env);
    } else {
      var (code, s1) := ReadByte(s).Extract();
      var shape := ReadShape(code).value;
      var (fields, s2) := DecodeFields(env, scope, shape, s1).Extract();
      var ops := DecodeOps(env, scope, n - 1, s2).value;
      FieldsColumns(env, scope, shape, s1);
      OpsColumns(env, scope, n - 1, s2);
      assert ([Op(code, fields)] + ops)[1..] == ops;
      CheckedTogether(env, StoredInFields(env, scope, shape, s1), OperatorsOfFields(fields),
                      StoredInOps(env, scope, n - 1, s2), OperatorsOfOps(ops));
    }
  }

  // ---------------------------------------------------------------- an accepted function

  /** Everything in the function refers to these tables. */
  predicate GroundedIn(env: Env, scope: Scope, f: FunctionIr) {
    && ResolvedOps(env, scope, f.operations) && f.returnType in scope.types
    && (forall i :: 0 <= i < |f.params| ==> f.params[i].slot == i && f.params[i].typeHash in scope.types)
    && (forall i :: 0 <= i < |f.locals| ==> f.locals[i].slot == i && f.locals[i].typeHash in scope.types)
    && f.schema in scope.strings && f.symbolHash in scope.strings && f.defHash in scope.strings
    && f.sigHash in scope.strings && f.bodyHash in scope.strings
  }

  /** The layout row stores the columns that follow from its layout. */
  predicate LayoutRowHolds(env: Env, l: Layout, r: Row) {
    && |r.fields| == 12 && r.fields[0] == Str(l.typeHash) && r.fields[1] == Str(l.kind)
    && r.fields[2] == U64(l.sizeBytes) && r.fields[3] == U64(l.alignBytes)
    && r.fields[4] == Str(l.pass) && r.fields[5] == Str(l.return_)
    && r.fields[6].Str? && env.parseJson(r.fields[6].text) == Some(l.metadata)
    && BufferColumns(l).Some?
    && forall c :: 0 <= c < 5 ==> r.fields[7 + c] == U64(BufferColumns(l).value[c])
  }

  /** The type row links to no layout or to one of its own type, and stores the
      columns that follow from it. */
  predicate TypeRowHolds(env: Env, layouts: seq<Layout>, hash: Text, r: Row) {
    && |r.fields| == 4 && r.fields[0] == Str(hash) && r.fields[1].U32?
    && var link := r.fields[1].word;
       && (link != NO_LAYOUT ==> link < |layouts| && layouts[link].typeHash == hash)
       && var meta := TypeMeta(env, hash, if link != NO_LAYOUT && link < |layouts| then Some(layouts[link]) else None);
          r.fields[2] == U8(meta.0) && r.fields[3] == U64(meta.1)
  }

  lemma ParamInScope(env: Env, scope: Scope, r: Row)
    requires ResolvedAll(env, scope, PARAM_SHAPE, r.fields) && ParamOf(r).Some?
    ensures ParamOf(r).value.typeHash in scope.types
  {
    assert Resolved(env, scope, PARAM_SHAPE[1], r.fields[1]);
  }

  lemma LocalInScope(env: Env, scope: Scope, r: Row)
    requires ResolvedAll(env, scope, LOCAL_SHAPE, r.fields) && LocalOf(r).Some?
    ensures LocalOf(r).value.typeHash in scope.types
  {
    assert Resolved(env, scope, LOCAL_SHAPE[1], r.fields[1]);
  }

  lemma LayoutHasColumns(env: Env, r: Row)
    requires LayoutOf(env, r).Some?
    ensures LayoutRowHolds(env, LayoutOf(env, r).value, r)
  {
    hide BufferColumns;
    var l := LayoutOf(env, r).value;
    var f, c := r.fields, BufferColumns(l).value;
    assert [f[7].wide, f[8].wide, f[9].wide, f[10].wide, f[11].wide] == c;
  }

  lemma TypeHasColumns(env: Env, layouts: seq<Layout>, r: Row)
    requires TypeOf(env, layouts, r).Some?
    ensures TypeRowHolds(env, layouts, TypeOf(env, layouts, r).value, r)
  {
    hide TypeMeta;
  }

  lemma RowResolves(env: Env, scope: Scope, shape: seq<Kind>, rows: seq<Row>, i: nat)
    requires ResolvedRows(env, scope, shape, rows) && i < |rows|
    ensures ResolvedAll(env, scope, shape, rows[i].fields)
  {
  }

  lemma TailGrounds(env: Env, scope: Scope, head: seq<Field>, layouts: seq<Layout>, tail: seq<Field>)
    requires HeadMatches(head) && TailMatches(tail) && FunctionOf(head, layouts, tail).Some?
    requires ResolvedAll(env, scope, TAIL_SHAPE, tail)
    requires forall i :: 0 <= i < 5 ==> Resolved(env, scope, KStr, head[i])
    ensures GroundedIn(env, scope, FunctionOf(head, layouts, tail).value)
    ensures FunctionOf(head, layouts, tail).value.operations == tail[3].ops
    ensures FunctionOf(head, layouts, tail).value.layouts == layouts
  {
    hide Traverse, ParamOf, LocalOf, ResolvedOps, ResolvedRows;
    var f := FunctionOf(head, layouts, tail).value;
    assert Resolved(env, scope, TAIL_SHAPE[0], tail[0]) && Resolved(env, scope, TAIL_SHAPE[1], tail[1]);
    assert Resolved(env, scope, TAIL_SHAPE[2], tail[2]) && Resolved(env, scope, TAIL_SHAPE[3], tail[3]);
    forall i | 0 <= i < |f.params|
      ensures f.params[i].typeHash in scope.types
    {
      RowResolves(env, scope, PARAM_SHAPE, tail[1].rows, i);
      ParamInScope(env, scope, tail[1].rows[i]);
    }
    forall i | 0 <= i < |f.locals|
      ensures f.locals[i].typeHash in scope.types
    {
      RowResolves(env, scope, LOCAL_SHAPE, tail[2].rows, i);
      LocalInScope(env, scope, tail[2].rows[i]);
    }
  }

  /** What acceptance of a section says about the function decoded from it. The
      tables are the ones the section's own head stores. */
  predicate Grounded(env: Env, strings: seq<Text>, data: seq<seq<Byte>>, symbols: seq<Text>, section: seq<Byte>, f: FunctionIr) {
    var open_ := Scope(strings, data, symbols, [], []);
    DecodeHead(env, open_, section).Got?
    && var (parts, rest) := DecodeHead(env, open_, section).Extract();
       var (head, layouts, types, values) := parts;
       var scope := Scope(strings, data, symbols, values, types);
       && f.layouts == layouts
       && |head[5].rows| == |layouts| && |head[6].rows| == |types| && |head[7].rows| == |values|
       && (forall i :: 0 <= i < |layouts| ==> LayoutRowHolds(env, layouts[i], head[5].rows[i]))
       && (forall i :: 0 <= i < |types| ==> TypeRowHolds(env, layouts, types[i], head[6].rows[i]))
       && (forall i :: 0 <= i < |values| ==> values[i] in strings)
       && GroundedIn(env, scope, f)
       && DecodeFields(env, scope, TAIL_SHAPE, rest).Got?
       && DecodeFields(env, scope, TAIL_SHAPE, rest).rest == []
       && Checked(env, StoredInFields(env, scope, TAIL_SHAPE, rest), OperatorsOfOps(f.operations))
  }

  lemma AcceptedSectionIsGrounded(env: Env, strings: seq<Text>, data: seq<seq<Byte>>, symbols: seq<Text>, s: seq<Byte>)
    requires DecodeSection(env, strings, data, symbols, s).Some?
    ensures Grounded(env, strings, data, symbols, s, DecodeSection(env, strings, data, symbols, s).value)
  {
    hide DecodeFields, DecodeHead, FunctionOf, GroundedIn, HeadMatches, TailMatches, LayoutRowHolds, TypeRowHolds, Checked,
         StoredInFields, OperatorsOfOps;
    var open_ := Scope(strings, data, symbols, [], []);
    var (parts, rest) := DecodeHead(env, open_, s).Extract();
    var (head, layouts, types, values) := parts;
    var scope := Scope(strings, data, symbols, values, types);
    var tail := DecodeFields(env, scope, TAIL_SHAPE, rest).value;
    HeadHolds(env, strings, data, symbols, scope, s);
    FieldsResolve(env, scope, TAIL_SHAPE, rest);
    TailGrounds(env, scope, head, layouts, tail);
    FieldsColumns(env, scope, TAIL_SHAPE, rest);
    TailOperators(head, layouts, tail);
  }

  lemma {:induction false} RowsWithoutOperators(rows: seq<Row>)
    requires forall i :: 0 <= i < |rows| ==> OperatorsOfFields(rows[i].fields) == []
    ensures OperatorsOfRows(rows) == []
    decreases |rows|
  {
    if rows != [] {
      RowsWithoutOperators(rows[1..]);
    }
  }

  /** A field that is neither an operator nor holds other fields. */
  predicate Plain(f: Field) {
    f.TypeHash? || f.Str? || f.Slot? || f.U64?
  }

  lemma {:induction false} PlainFields(fields: seq<Field>)
    requires forall i :: 0 <= i < |fields| ==> Plain(fields[i])
    ensures OperatorsOfFields(fields) == []
    decreases |fields|
  {
    if fields != [] {
      PlainFields(fields[1..]);
    }
  }

  lemma RowIsPlain(r: Row)
    requires ParamOf(r).Some? || LocalOf(r).Some? || DebugOpOf(r).Some? || TextOf(r).Some?
    ensures OperatorsOfFields(r.fields) == []
  {
    PlainFields(r.fields);
  }

  lemma ParamRowsArePlain(rows: seq<Row>)
    requires Traverse(ParamOf, rows).Some? || Traverse(LocalOf, rows).Some? || Traverse(DebugOpOf, rows).Some? || Traverse(TextOf, rows).Some?
    ensures OperatorsOfRows(rows) == []
  {
    hide ParamOf, LocalOf, DebugOpOf, TextOf, Traverse;
    forall i | 0 <= i < |rows|
      ensures OperatorsOfFields(rows[i].fields) == []
    {
      RowIsPlain(rows[i]);
    }
    RowsWithoutOperators(rows);
  }

  lemma ExprRowsArePlain(rows: seq<Row>)
    requires Traverse(ExprOpsOf, rows).Some?
    ensures OperatorsOfRows(rows) == []
  {
    forall i | 0 <= i < |rows|
      ensures OperatorsOfFields(rows[i].fields) == []
    {
      var f := rows[i].fields;
      assert ExprOpsOf(rows[i]).Some?;
      ParamRowsArePlain(f[1].rows);
      OperatorsFrom(f, 0);
      OperatorsFrom(f, 1);
      assert f[0..] == f && f[2..] == [];
    }
    RowsWithoutOperators(rows);
  }

  /** Only the operations of a tail hold operators. */
  lemma TailOperators(head: seq<Field>, layouts: seq<Layout>, tail: seq<Field>)
    requires HeadMatches(head) && TailMatches(tail) && FunctionOf(head, layouts, tail).Some?
    ensures OperatorsOfFields(tail) == OperatorsOfOps(tail[3].ops)
  {
    TailIsPlain(head, layouts, tail);
    hide FunctionOf, HeadMatches, TailMatches;
    OnlyAt(tail, 3);
  }

  lemma {:induction false} OnlyAt(fields: seq<Field>, k: nat)
    requires k < |fields| && forall i :: 0 <= i < |fields| && i != k ==> OperatorsOfField(fields[i]) == []
    ensures OperatorsOfFields(fields) == OperatorsOfField(fields[k])
    decreases k
  {
    if k > 0 {
      OnlyAt(fields[1..], k - 1);
    } else {
      NoneAnywhere(fields[1..]);
    }
  }

  lemma {:induction false} NoneAnywhere(fields: seq<Field>)
    requires forall i :: 0 <= i < |fields| ==> OperatorsOfField(fields[i]) == []
    ensures OperatorsOfFields(fields) == []
    decreases |fields|
  {
    if fields != [] {
      NoneAnywhere(fields[1..]);
    }
  }

  lemma TailIsPlain(head: seq<Field>, layouts: seq<Layout>, tail: seq<Field>)
    requires HeadMatches(head) && TailMatches(tail) && FunctionOf(head, layouts, tail).Some?
    ensures |tail| == 7 && tail[3].Ops? && OperatorsOfField(tail[3]) == OperatorsOfOps(tail[3].ops)
    ensures forall i :: 0 <= i < 7 && i != 3 ==> OperatorsOfField(tail[i]) == []
  {
    hide Traverse, OperatorsOfRows, OperatorsOfOps;
    ParamRowsArePlain(tail[1].rows);
    ParamRowsArePlain(tail[2].rows);
    ParamRowsArePlain(tail[5].rows);
    ExprRowsArePlain(tail[6].rows);
  }

  lemma OperatorsFrom(fields: seq<Field>, i: nat)
    requires i < |fields|
    ensures OperatorsOfFields(fields[i..]) == OperatorsOfField(fields[i]) + OperatorsOfFields(fields[i + 1..])
  {
    assert fields[i..][1..] == fields[i + 1..];
  }

  lemma HeadHolds(env: Env, strings: seq<Text>, data: seq<seq<Byte>>, symbols: seq<Text>, scope: Scope, s: seq<Byte>)
    requires DecodeHead(env, Scope(strings, data, symbols, [], []), s).Got? && scope.strings == strings
    ensures var (head, layouts, types, values) := DecodeHead(env, Scope(strings, data, symbols, [], []), s).value;
            && HeadMatches(head)
            && |head[5].rows| == |layouts| && |head[6].rows| == |types| && |head[7].rows| == |values|
            && (forall i :: 0 <= i < |layouts| ==> LayoutRowHolds(env, layouts[i], head[5].rows[i]))
            && (forall i :: 0 <= i < |types| ==> TypeRowHolds(env, layouts, types[i], head[6].rows[i]))
            && (forall i :: 0 <= i < |values| ==> values[i] in strings)
            && (forall i :: 0 <= i < 5 ==> Resolved(env, scope, KStr, head[i]))
  {
    hide DecodeFields, LayoutOf, TypeOf, LayoutRowHolds, TypeRowHolds, ResolvedRows;
    var open_ := Scope(strings, data, symbols, [], []);
    var (head, layouts, types, values) := DecodeHead(env, open_, s).value;
    FieldsResolve(env, open_, HEAD_SHAPE, s);
    forall i | 0 <= i < 8
      ensures Resolved(env, open_, HEAD_SHAPE[i], head[i])
    {
    }
    forall i | 0 <= i < |layouts|
      ensures LayoutRowHolds(env, layouts[i], head[5].rows[i])
    {
      LayoutHasColumns(env, head[5].rows[i]);
    }
    forall i | 0 <= i < |types|
      ensures TypeRowHolds(env, layouts, types[i], head[6].rows[i])
    {
      TypeHasColumns(env, layouts, head[6].rows[i]);
    }
    forall i | 0 <= i < |values|
      ensures values[i] in strings
    {
      RowResolves(env, open_, TEXT_SHAPE, head[7].rows, i);
      assert Resolved(env, open_, TEXT_SHAPE[0], head[7].rows[i].fields[0]);
    }
  }

  // ---------------------------------------------------------------- an accepted file

  function SectionAt(region: seq<Byte>, x: Span): seq<Byte>
    requires x.offset + x.length <= |region|
  {
    region[x.offset..x.offset + x.length]
  }

  /** The span cuts out a section inside the region that decodes to the function. */
  predicate SectionHolds(env: Env, h: Header, symbols: seq<Text>, x: Span, region: seq<Byte>, f: FunctionIr) {
    && x.offset + x.length <= |region| && f.symbolHash == x.symbol
    && DecodeSection(env, h.strings, h.data, symbols, SectionAt(region, x)) == Some(f)
    && Grounded(env, h.strings, h.data, symbols, SectionAt(region, x), f)
  }

  predicate Sections(env: Env, h: Header, symbols: seq<Text>, spans: seq<Span>, region: seq<Byte>, fs: seq<FunctionIr>) {
    |fs| == |spans| && forall i :: 0 <= i < |spans| ==> SectionHolds(env, h, symbols, spans[i], region, fs[i])
  }

  lemma FirstSectionHolds(env: Env, h: Header, symbols: seq<Text>, spans: seq<Span>, expected: nat, region: seq<Byte>)
    requires spans != [] && DecodeSections(env, h, symbols, spans, expected, region).Some?
    ensures var rest := DecodeSections(env, h, symbols, spans[1..], expected + spans[0].length, region);
            var fs := DecodeSections(env, h, symbols, spans, expected, region).value;
            && rest.Some? && fs == [fs[0]] + rest.value && SectionHolds(env, h, symbols, spans[0], region, fs[0])
  {
    hide DecodeSection, Grounded;
    AcceptedSectionIsGrounded(env, h.strings, h.data, symbols, SectionAt(region, spans[0]));
  }

  lemma {:induction false} SectionsAreGrounded(env: Env, h: Header, symbols: seq<Text>, spans: seq<Span>, expected: nat, region: seq<Byte>)
    requires DecodeSections(env, h, symbols, spans, expected, region).Some?
    ensures Sections(env, h, symbols, spans, region, DecodeSections(env, h, symbols, spans, expected, region).value)
    decreases |spans|
  {
    hide DecodeSection, Grounded, SectionHolds, Sections;
    if spans == [] {
      NoSections(env, h, symbols, region);
    } else {
      hide DecodeSections;
      FirstSectionHolds(env, h, symbols, spans, expected, region);
      SectionsAreGrounded(env, h, symbols, spans[1..], expected + spans[0].length, region);
      var fs := DecodeSections(env, h, symbols, spans, expected, region).value;
      OneMoreSection(env, h, symbols, spans[0], spans[1..], region, fs[0], fs[1..]);
      assert [spans[0]] + spans[1..] == spans;
    }
  }

  lemma NoSections(env: Env, h: Header, symbols: seq<Text>, region: seq<Byte>)
    ensures Sections(env, h, symbols, [], region, [])
  {
  }

  lemma {:induction false} OneMoreSection(env: Env, h: Header, symbols: seq<Text>, x: Span, spans: seq<Span>,
                                          region: seq<Byte>, f: FunctionIr, fs: seq<FunctionIr>)
    requires SectionHolds(env, h, symbols, x, region, f) && Sections(env, h, symbols, spans, region, fs)
    ensures Sections(env, h, symbols, [x] + spans, region, [f] + fs)
  {
    hide SectionHolds;
  }

  /** An accepted file stores its strings, data and function table in its header;
      the target and the function symbols are among the strings, the entry is in
      the table, the sections follow one another to the end of the file, and
      each decodes to a function that refers only to the tables in its own head,
      to the file's strings and data, and to functions of the file. */
  lemma AcceptedFileIsClosed(env: Env, bytes: seq<Byte>)
    requires DecodeFile(env, bytes).Some?
    ensures ReadHeader(bytes).Got?
    ensures var p := DecodeFile(env, bytes).value;
            var (h, region) := ReadHeader(bytes).Extract();
            && p.target == h.target && h.target in h.strings
            && p.entryIndex < |p.functions| == |h.spans|
            && (forall i :: 0 <= i < |h.spans| ==> h.spans[i].symbol in h.strings)
            && (forall i :: 0 <= i < |h.spans| ==> h.spans[i].offset == TotalLength(h.spans[..i]))
            && TotalLength(h.spans) == |region|
            && Sections(env, h, Symbols(p.functions), h.spans, region, p.functions)
  {
    hide ReadHeader, DecodeSections, Grounded, DecodeSection;
    var p := DecodeFile(env, bytes).value;
    var (h, region) := ReadHeader(bytes).Extract();
    HeaderIsClosed(bytes);
    SectionsAreGrounded(env, h, SpanSymbols(h.spans), h.spans, 0, region);
    SectionsTile(env, h, SpanSymbols(h.spans), h.spans, 0, region);
    assert Symbols(p.functions) == SpanSymbols(h.spans);
  }

  lemma HeaderIsClosed(bytes: seq<Byte>)
    requires ReadHeader(bytes).Got?
    ensures var h := ReadHeader(bytes).value;
            && h.target in h.strings && h.entryIndex < |h.spans|
            && forall i :: 0 <= i < |h.spans| ==> h.spans[i].symbol in h.strings
  {
    hide ReadLe, ReadBytes, ReadPool, Lookup, Traverse, ReadTable;
    var s1 := ReadBytes(4, bytes).rest;
    var s2 := ReadLe(4, s1).rest;
    var (rawStrings, s3) := ReadPool(s2).Extract();
    var strings := Traverse(AsText, rawStrings).value;
    var s4 := ReadPool(s3).rest;
    LookupIsMember(strings, s4);
    var s5 := Lookup(strings, s4).rest;
    var s6 := ReadLe(4, s5).rest;
    var (count, s7) := ReadLe(4, s6).Extract();
    TableNamesStrings(strings, count, s7);
  }

  lemma {:induction false} TableNamesStrings(strings: seq<Text>, n: nat, s: seq<Byte>)
    requires ReadTable(strings, n, s).Got?
    ensures |ReadTable(strings, n, s).value| == n
    ensures forall x :: x in ReadTable(strings, n, s).value ==> x.symbol in strings
    decreases n
  {
    hide ReadLe, Lookup;
    if n > 0 {
      LookupIsMember(strings, s);
      var s1 := Lookup(strings, s).rest;
      var s2 := ReadLe(4, s1).rest;
      var s3 := ReadLe(4, s2).rest;
      TableNamesStrings(strings, n - 1, s3);
    }
  }
}
