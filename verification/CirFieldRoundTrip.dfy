/** Decoding what the encoder wrote, against any completed tables. */
module CirFieldRoundTrip {
  import opened Wrappers
  import opened CirBytes
  import opened CirIr
  import opened CirEncode
  import opened CirDecode

  lemma ShapesAgree(code: Byte)
    ensures ReadShape(code) == WriteShape(code)
    ensures ReadPlaceShape(code) == PlaceShape(code)
  {
    var _ := ReadShape(code) == WriteShape(code);
  }

  function ScopeOf(t: Tables, symbols: seq<Text>): Scope {
    Scope(t.strings, t.data, symbols, t.values, t.types)
  }

  lemma LookupInverts<T>(table: seq<T>, grown: seq<T>, i: nat, rest: seq<Byte>)
    requires i < |table| && i < U32_LIMIT && table <= grown
    ensures Lookup(grown, Le(i, 4) + rest) == Got(table[i], rest)
  {
    Widths();
    ReadLeInverts(i, 4, rest);
  }

  lemma ReadByteInverts(b: Byte, rest: seq<Byte>)
    ensures ReadByte([b] + rest) == Got(b, rest)
  {
    assert ([b] + rest)[1..] == rest;
  }

  lemma StrInverts(text: Text, t: Tables, grown: Tables, rest: seq<Byte>)
    requires PutStr(text, t).Wrote? && Grows(PutStr(text, t).tables, grown)
    ensures Lookup(grown.strings, PutStr(text, t).bytes + rest) == Got(text, rest)
  {
    var (i, strings) := Intern(t.strings, text).value;
    LookupInverts(strings, grown.strings, i, rest);
  }

  lemma ValueInverts(id: Text, t: Tables, grown: Tables, rest: seq<Byte>)
    requires PutValue(id, t).Wrote? && Grows(PutValue(id, t).tables, grown)
    ensures Lookup(grown.values, PutValue(id, t).bytes + rest) == Got(id, rest)
  {
    var (i, values) := Intern(t.values, id).value;
    LookupInverts(values, grown.values, i, rest);
  }

  lemma TypeInverts(hash: Text, t: Tables, grown: Tables, rest: seq<Byte>)
    requires PutType(hash, t).Wrote? && Grows(PutType(hash, t).tables, grown)
    ensures Lookup(grown.types, PutType(hash, t).bytes + rest) == Got(hash, rest)
  {
    var (i, types) := Intern(t.types, hash).value;
    LookupInverts(types, grown.types, i, rest);
  }

  lemma DataInverts(bytes: seq<Byte>, t: Tables, grown: Tables, rest: seq<Byte>)
    requires PutData(bytes, t).Wrote? && Grows(PutData(bytes, t).tables, grown)
    ensures Lookup(grown.data, PutData(bytes, t).bytes + rest) == Got(bytes, rest)
  {
    var (i, data) := Intern(t.data, bytes).value;
    LookupInverts(data, grown.data, i, rest);
  }

  /** Optional text or value, written as a presence flag and an index. */
  lemma PresentInverts(flag: Byte, b: seq<Byte>, rest: seq<Byte>)
    ensures ReadByte(([flag] + b) + rest) == Got(flag, b + rest)
  {
    assert ([flag] + b) + rest == [flag] + (b + rest);
    ReadByteInverts(flag, b + rest);
  }

  lemma OperatorInverts(env: Env, opKind: Text, t: Tables, grown: Tables, symbols: seq<Text>, rest: seq<Byte>)
    requires PutOperator(env, opKind, t).Wrote? && Grows(PutOperator(env, opKind, t).tables, grown)
    ensures DecodeLeaf(env, ScopeOf(grown, symbols), KOperator, PutOperator(env, opKind, t).bytes + rest)
            == Got(Operator(opKind), rest)
  {
    hide PutStr, Lookup;
    var b := PutStr(opKind, t).bytes;
    var (verb, width, signed) := env.operatorColumns(opKind).value;
    var columns: seq<Byte> := [verb, width, signed];
    assert (b + columns) + rest == b + (columns + rest);
    StrInverts(opKind, t, grown, columns + rest);
    assert ReadBytes(3, columns + rest) == Got(columns, rest) by {
      assert (columns + rest)[..3] == columns && (columns + rest)[3..] == rest;
    }
  }

  lemma TrapInverts(env: Env, trap: Option<(Text, Text)>, t: Tables, grown: Tables, symbols: seq<Text>, rest: seq<Byte>)
    requires PutTrap(trap, t).Wrote? && Grows(PutTrap(trap, t).tables, grown)
    ensures DecodeLeaf(env, ScopeOf(grown, symbols), KTrap, PutTrap(trap, t).bytes + rest) == Got(Trap(trap), rest)
  {
    hide PutStr, Lookup;
    match trap
    case None => ReadByteInverts(0, rest);
    case Some((condition, code)) =>
      var e1 := PutStr(condition, t);
      var e2 := PutStr(code, e1.tables);
      PresentInverts(1, e1.bytes + e2.bytes, rest);
      assert (e1.bytes + e2.bytes) + rest == e1.bytes + (e2.bytes + rest);
      StrInverts(condition, t, grown, e2.bytes + rest);
      StrInverts(code, e1.tables, grown, rest);
  }

  lemma IntTextInverts(env: Env, decimal: Text, t: Tables, scope: Scope, rest: seq<Byte>)
    requires PutIntText(decimal, t).Wrote?
    ensures DecodeLeaf(env, scope, KIntText, PutIntText(decimal, t).bytes + rest) == Got(IntText(decimal), rest)
  {
    hide ParseI64, Decimal;
    var i := ParseI64(decimal).value;
    Widths();
    ReadLeInverts(I64Bits(i), 8, rest);
  }

  lemma LeafRoundTrip(env: Env, symbols: seq<Text>, k: Kind, f: Field, t: Tables, grown: Tables, rest: seq<Byte>)
    requires EncodeLeaf(env, symbols, k, f, t).Wrote?
    requires Grows(EncodeLeaf(env, symbols, k, f, t).tables, grown)
    ensures DecodeLeaf(env, ScopeOf(grown, symbols), k, EncodeLeaf(env, symbols, k, f, t).bytes + rest)
            == Got(f, rest)
  {
    hide PutStr, PutValue, PutType, PutData, PutOperator, PutTrap, PutIntText, Lookup, BytesToHex, IndexOf, Decimal;
    Widths();
    match k
    case KValueId => ValueInverts(f.id, t, grown, rest);
    case KTypeHash => TypeInverts(f.hash, t, grown, rest);
    case KStr => StrInverts(f.text, t, grown, rest);
    case KOptStr =>
      if f.optText.None? {
        ReadByteInverts(0, rest);
      } else {
        PresentInverts(1, PutStr(f.optText.value, t).bytes, rest);
        StrInverts(f.optText.value, t, grown, rest);
      }
    case KOptValueId =>
      if f.optId.None? {
        ReadByteInverts(0, rest);
      } else {
        PresentInverts(1, PutValue(f.optId.value, t).bytes, rest);
        ValueInverts(f.optId.value, t, grown, rest);
      }
    case KU8 => ReadByteInverts(f.byte, rest);
    case KU32 => ReadLeInverts(f.word, 4, rest);
    case KU64 => ReadLeInverts(f.wide, 8, rest);
    case KFlag => ReadByteInverts(if f.flag then 1 else 0, rest);
    case KSlot => ReadLeInverts(f.slot, 4, rest);
    case KOperator => OperatorInverts(env, f.opKind, t, grown, symbols, rest);
    case KTrap => TrapInverts(env, f.trap, t, grown, symbols, rest);
    case KIntText => IntTextInverts(env, f.decimal, t, ScopeOf(grown, symbols), rest);
    case KHex => DataInverts(HexToBytes(f.hex).value, t, grown, rest);
    case KCallTarget => LookupInverts(symbols, symbols, IndexOf(symbols, f.symbol), rest);
  }

  lemma {:induction false} FieldRoundTrip(env: Env, symbols: seq<Text>, k: Kind, f: Field, t: Tables, grown: Tables, rest: seq<Byte>)
    requires EncodeField(env, symbols, k, f, t).Wrote?
    requires Grows(EncodeField(env, symbols, k, f, t).tables, grown)
    ensures DecodeField(env, ScopeOf(grown, symbols), k, EncodeField(env, symbols, k, f, t).bytes + rest)
            == Got(f, rest)
    decreases f
  {
    hide EncodeLeaf, DecodeLeaf, EncodeFields, EncodeOps, EncodeRows, DecodeFields, DecodeRows, DecodeOps, PutValue, Lookup, PlaceShape, ReadPlaceShape;
    match k
    case KPlace =>
      ShapesAgree(f.placeKind);
      var shape := PlaceShape(f.placeKind).value;
      var e := EncodeFields(env, symbols, shape, f.placeFields, t);
      PresentInverts(f.placeKind, e.bytes, rest);
      FieldsRoundTrip(env, symbols, shape, f.placeFields, t, grown, rest);
    case KBlock =>
      var e1 := EncodeOps(env, symbols, f.operations, t);
      var e2 := PutValue(f.result, e1.tables);
      CountInverts(|f.operations|, e1.bytes + e2.bytes, rest);
      assert (e1.bytes + e2.bytes) + rest == e1.bytes + (e2.bytes + rest);
      OpsRoundTrip(env, symbols, f.operations, t, grown, e2.bytes + rest);
      ValueInverts(f.result, e1.tables, grown, rest);
    case KOps =>
      CountInverts(|f.ops|, EncodeOps(env, symbols, f.ops, t).bytes, rest);
      OpsRoundTrip(env, symbols, f.ops, t, grown, rest);
    case KRows(row) =>
      CountInverts(|f.rows|, EncodeRows(env, symbols, row, f.rows, t).bytes, rest);
      RowsRoundTrip(env, symbols, row, f.rows, t, grown, rest);
    case _ =>
      LeafRoundTrip(env, symbols, k, f, t, grown, rest);
  }

  lemma CountInverts(n: nat, b: seq<Byte>, rest: seq<Byte>)
    requires n < U32_LIMIT
    ensures ReadLe(4, (Le(n, 4) + b) + rest) == Got(n, b + rest)
  {
    assert (Le(n, 4) + b) + rest == Le(n, 4) + (b + rest);
    Widths();
    ReadLeInverts(n, 4, b + rest);
  }

  lemma FieldsStep(env: Env, scope: Scope, shape: seq<Kind>, s: seq<Byte>, fields: seq<Field>, s1: seq<Byte>, rest: seq<Byte>)
    requires fields != [] && shape != []
    requires DecodeField(env, scope, shape[0], s) == Got(fields[0], s1)
    requires DecodeFields(env, scope, shape[1..], s1) == Got(fields[1..], rest)
    ensures DecodeFields(env, scope, shape, s) == Got(fields, rest)
  {
    assert [fields[0]] + fields[1..] == fields;
  }

  lemma RowsStep(env: Env, scope: Scope, shape: seq<Kind>, s: seq<Byte>, rows: seq<Row>, s1: seq<Byte>, rest: seq<Byte>)
    requires rows != []
    requires DecodeFields(env, scope, shape, s) == Got(rows[0].fields, s1)
    requires DecodeRows(env, scope, shape, |rows| - 1, s1) == Got(rows[1..], rest)
    ensures DecodeRows(env, scope, shape, |rows|, s) == Got(rows, rest)
  {
    assert [Row(rows[0].fields)] + rows[1..] == rows;
  }

  lemma OpsStep(env: Env, scope: Scope, shape: seq<Kind>, s: seq<Byte>, s1: seq<Byte>, ops: seq<Op>, s2: seq<Byte>, rest: seq<Byte>)
    requires ops != []
    requires ReadByte(s) == Got(ops[0].code, s1)
    requires ReadShape(ops[0].code) == Some(shape)
    requires DecodeFields(env, scope, shape, s1) == Got(ops[0].fields, s2)
    requires DecodeOps(env, scope, |ops| - 1, s2) == Got(ops[1..], rest)
    ensures DecodeOps(env, scope, |ops|, s) == Got(ops, rest)
  {
    assert [Op(ops[0].code, ops[0].fields)] + ops[1..] == ops;
  }

  lemma {:induction false} FieldsRoundTrip(env: Env, symbols: seq<Text>, shape: seq<Kind>, fields: seq<Field>, t: Tables, grown: Tables, rest: seq<Byte>)
    requires EncodeFields(env, symbols, shape, fields, t).Wrote?
    requires Grows(EncodeFields(env, symbols, shape, fields, t).tables, grown)
    ensures DecodeFields(env, ScopeOf(grown, symbols), shape, EncodeFields(env, symbols, shape, fields, t).bytes + rest)
            == Got(fields, rest)
    decreases fields
  {
    if fields == [] {
      assert [] + rest == rest;
    } else {
      var e1 := EncodeField(env, symbols, shape[0], fields[0], t);
      var e2 := EncodeFields(env, symbols, shape[1..], fields[1..], e1.tables);
      assert (e1.bytes + e2.bytes) + rest == e1.bytes + (e2.bytes + rest);
      FieldRoundTrip(env, symbols, shape[0], fields[0], t, grown, e2.bytes + rest);
      FieldsRoundTrip(env, symbols, shape[1..], fields[1..], e1.tables, grown, rest);
      FieldsStep(env, ScopeOf(grown, symbols), shape, e1.bytes + (e2.bytes + rest), fields, e2.bytes + rest, rest);
    }
  }

  lemma {:induction false} RowsRoundTrip(env: Env, symbols: seq<Text>, shape: seq<Kind>, rows: seq<Row>, t: Tables, grown: Tables, rest: seq<Byte>)
    requires EncodeRows(env, symbols, shape, rows, t).Wrote?
    requires Grows(EncodeRows(env, symbols, shape, rows, t).tables, grown)
    ensures DecodeRows(env, ScopeOf(grown, symbols), shape, |rows|, EncodeRows(env, symbols, shape, rows, t).bytes + rest)
            == Got(rows, rest)
    decreases rows
  {
    if rows == [] {
      assert [] + rest == rest;
    } else {
      var e1 := EncodeFields(env, symbols, shape, rows[0].fields, t);
      var e2 := EncodeRows(env, symbols, shape, rows[1..], e1.tables);
      assert (e1.bytes + e2.bytes) + rest == e1.bytes + (e2.bytes + rest);
      FieldsRoundTrip(env, symbols, shape, rows[0].fields, t, grown, e2.bytes + rest);
      RowsRoundTrip(env, symbols, shape, rows[1..], e1.tables, grown, rest);
      RowsStep(env, ScopeOf(grown, symbols), shape, e1.bytes + (e2.bytes + rest), rows, e2.bytes + rest, rest);
    }
  }

  lemma {:induction false} OpsRoundTrip(env: Env, symbols: seq<Text>, ops: seq<Op>, t: Tables, grown: Tables, rest: seq<Byte>)
    requires EncodeOps(env, symbols, ops, t).Wrote?
    requires Grows(EncodeOps(env, symbols, ops, t).tables, grown)
    ensures DecodeOps(env, ScopeOf(grown, symbols), |ops|, EncodeOps(env, symbols, ops, t).bytes + rest)
            == Got(ops, rest)
    decreases ops
  {
    if ops == [] {
      assert [] + rest == rest;
    } else {
      ShapesAgree(ops[0].code);
      var shape := WriteShape(ops[0].code).value;
      var e1 := EncodeFields(env, symbols, shape, ops[0].fields, t);
      var e2 := EncodeOps(env, symbols, ops[1..], e1.tables);
      PresentInverts(ops[0].code, e1.bytes + e2.bytes, rest);
      assert (e1.bytes + e2.bytes) + rest == e1.bytes + (e2.bytes + rest);
      FieldsRoundTrip(env, symbols, shape, ops[0].fields, t, grown, e2.bytes + rest);
      OpsRoundTrip(env, symbols, ops[1..], e1.tables, grown, rest);
      var s := e1.bytes + (e2.bytes + rest);
      OpsStep(env, ScopeOf(grown, symbols), shape, [ops[0].code] + s, s, ops, e2.bytes + rest, rest);
    }
  }
}
