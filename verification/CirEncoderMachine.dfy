/** The encoder as it runs: pools and tables that are pushed into, index maps
    kept beside them, and an output buffer that is appended to. */
module CirEncoderMachine {
  import opened Wrappers
  import opened CirBytes
  import opened CirIr
  import opened CirEncode

  /** `index` is the inverse of the duplicate-free table `entries`. */
  ghost predicate Indexes<T(!new)>(entries: seq<T>, index: map<T, nat>) {
    && (forall i :: 0 <= i < |entries| ==> entries[i] in index && index[entries[i]] == i)
    && (forall x :: x in index ==> index[x] < |entries| && entries[index[x]] == x)
  }

  lemma IndexedIsFirst<T(!new)>(entries: seq<T>, index: map<T, nat>, x: T)
    requires Indexes(entries, index)
    ensures x in index <==> x in entries
    ensures x in index ==> index[x] == IndexOf(entries, x)
  {
  }

  // ---------------------------------------------------------------- one step of the specification

  /** `e` continued after `sofar` has been written. */
  function After(sofar: seq<Byte>, e: Enc): Enc {
    match e
    case Refused => Refused
    case Wrote(bytes, tables) => Wrote(sofar + bytes, tables)
  }

  lemma AfterNothing(e: Enc)
    ensures After([], e) == e
  {
    if e.Wrote? {
      assert [] + e.bytes == e.bytes;
    }
  }

  lemma AfterTwice(a: seq<Byte>, b: seq<Byte>, e: Enc)
    ensures After(a, After(b, e)) == After(a + b, e)
  {
    if e.Wrote? {
      assert a + (b + e.bytes) == (a + b) + e.bytes;
    }
  }

  lemma FieldsUnfold(env: Env, symbols: seq<Text>, shape: seq<Kind>, fields: seq<Field>, i: nat, t: Tables)
    requires |shape| == |fields| && i < |fields|
    ensures EncodeFields(env, symbols, shape[i..], fields[i..], t)
            == match EncodeField(env, symbols, shape[i], fields[i], t)
               case Refused => Refused
               case Wrote(b, t1) => After(b, EncodeFields(env, symbols, shape[i + 1..], fields[i + 1..], t1))
  {
    hide EncodeField;
    assert shape[i..][1..] == shape[i + 1..] && fields[i..][1..] == fields[i + 1..];
  }

  lemma FieldsEnds(env: Env, symbols: seq<Text>, shape: seq<Kind>, fields: seq<Field>)
    ensures |shape| != |fields| ==> forall t :: EncodeFields(env, symbols, shape, fields, t) == Refused
    ensures forall t :: EncodeFields(env, symbols, [], [], t) == Wrote([], t)
  {
  }

  lemma RowsEnd(env: Env, symbols: seq<Text>, shape: seq<Kind>)
    ensures forall t :: EncodeRows(env, symbols, shape, [], t) == Wrote([], t)
  {
  }

  lemma OpsEnd(env: Env, symbols: seq<Text>)
    ensures forall t :: EncodeOps(env, symbols, [], t) == Wrote([], t)
  {
  }

  lemma RowsUnfold(env: Env, symbols: seq<Text>, shape: seq<Kind>, rows: seq<Row>, i: nat, t: Tables)
    requires i < |rows|
    ensures EncodeRows(env, symbols, shape, rows[i..], t)
            == match EncodeFields(env, symbols, shape, rows[i].fields, t)
               case Refused => Refused
               case Wrote(b, t1) => After(b, EncodeRows(env, symbols, shape, rows[i + 1..], t1))
  {
    hide EncodeFields;
    assert rows[i..][1..] == rows[i + 1..];
  }

  lemma OpsUnfold(env: Env, symbols: seq<Text>, ops: seq<Op>, i: nat, t: Tables)
    requires i < |ops|
    ensures EncodeOps(env, symbols, ops[i..], t)
            == match WriteShape(ops[i].code)
               case None => Refused
               case Some(shape) =>
                 match EncodeFields(env, symbols, shape, ops[i].fields, t)
                 case Refused => Refused
                 case Wrote(b, t1) => After([ops[i].code] + b, EncodeOps(env, symbols, ops[i + 1..], t1))
  {
    hide EncodeFields, WriteShape;
    assert ops[i..][1..] == ops[i + 1..];
    if WriteShape(ops[i].code).Some? {
      var e := EncodeFields(env, symbols, WriteShape(ops[i].code).value, ops[i].fields, t);
      if e.Wrote? {
        var r := EncodeOps(env, symbols, ops[i + 1..], e.tables);
        if r.Wrote? {
          assert ([ops[i].code] + e.bytes) + r.bytes == [ops[i].code] + (e.bytes + r.bytes);
        }
      }
    }
  }

  class OutBuffer {
    var bytes: seq<Byte>

    constructor ()
      ensures bytes == []
    {
      bytes := [];
    }

    method Write(more: seq<Byte>)
      modifies this
      ensures bytes == old(bytes) + more
    {
      bytes := bytes + more;
    }
  }

  class Pools {
    var strings: seq<Text>
    var stringIndex: map<Text, nat>
    var data: seq<seq<Byte>>
    var dataIndex: map<seq<Byte>, nat>

    ghost predicate Valid()
      reads this
    {
      Indexes(strings, stringIndex) && Indexes(data, dataIndex)
    }

    constructor ()
      ensures Valid() && strings == [] && data == []
    {
      strings, stringIndex, data, dataIndex := [], map[], [], map[];
    }

    method Istr(value: Text) returns (r: Option<nat>)
      requires Valid()
      modifies this
      ensures Valid() && data == old(data)
      ensures match Intern(old(strings), value)
              case None => r == None && strings == old(strings)
              case Some((i, s)) => r == Some(i) && strings == s
    {
      IndexedIsFirst(strings, stringIndex, value);
      if value in stringIndex {
        return if stringIndex[value] < U32_LIMIT then Some(stringIndex[value]) else None;
      }
      if |strings| >= U32_LIMIT {
        return None;
      }
      r := Some(|strings|);
      stringIndex := stringIndex[value := |strings|];
      strings := strings + [value];
    }

    method Idata(value: seq<Byte>) returns (r: Option<nat>)
      requires Valid()
      modifies this
      ensures Valid() && strings == old(strings)
      ensures match Intern(old(data), value)
              case None => r == None && data == old(data)
              case Some((i, s)) => r == Some(i) && data == s
    {
      IndexedIsFirst(data, dataIndex, value);
      if value in dataIndex {
        return if dataIndex[value] < U32_LIMIT then Some(dataIndex[value]) else None;
      }
      if |data| >= U32_LIMIT {
        return None;
      }
      r := Some(|data|);
      dataIndex := dataIndex[value := |data|];
      data := data + [value];
    }
  }

  class FnTables {
    var values: seq<Text>
    var valueIndex: map<Text, nat>
    var types: seq<Text>
    var typeIndex: map<Text, nat>

    ghost predicate Valid()
      reads this
    {
      Indexes(values, valueIndex) && Indexes(types, typeIndex)
    }

    constructor ()
      ensures Valid() && values == [] && types == []
    {
      values, valueIndex, types, typeIndex := [], map[], [], map[];
    }

    method Vref(id: Text) returns (r: Option<nat>)
      requires Valid()
      modifies this
      ensures Valid() && types == old(types)
      ensures match Intern(old(values), id)
              case None => r == None && values == old(values)
              case Some((i, s)) => r == Some(i) && values == s
    {
      IndexedIsFirst(values, valueIndex, id);
      if id in valueIndex {
        return if valueIndex[id] < U32_LIMIT then Some(valueIndex[id]) else None;
      }
      if |values| >= U32_LIMIT {
        return None;
      }
      r := Some(|values|);
      valueIndex := valueIndex[id := |values|];
      values := values + [id];
    }

    method Tref(hash: Text) returns (r: Option<nat>)
      requires Valid()
      modifies this
      ensures Valid() && values == old(values)
      ensures match Intern(old(types), hash)
              case None => r == None && types == old(types)
              case Some((i, s)) => r == Some(i) && types == s
    {
      IndexedIsFirst(types, typeIndex, hash);
      if hash in typeIndex {
        return if typeIndex[hash] < U32_LIMIT then Some(typeIndex[hash]) else None;
      }
      if |types| >= U32_LIMIT {
        return None;
      }
      r := Some(|types|);
      typeIndex := typeIndex[hash := |types|];
      types := types + [hash];
    }
  }

  class FnEncoder {
    const env: Env
    const pools: Pools
    const tables: FnTables
    const fnIndex: map<Text, nat>
    ghost const symbols: seq<Text>

    ghost predicate Valid()
      reads pools, tables
    {
      && pools.Valid() && tables.Valid()
      && (forall x :: x in fnIndex <==> x in symbols)
      && (forall x :: x in fnIndex ==> fnIndex[x] == IndexOf(symbols, x))
    }

    /** The tables as a value. */
    ghost function State(): Tables
      reads pools, tables
    {
      Tables(pools.strings, pools.data, tables.values, tables.types)
    }

    /** What `ok` and the state say about a specified outcome. */
    twostate predicate Did(e: Enc, out: OutBuffer, ok: bool)
      reads pools, tables, out
    {
      && ok == e.Wrote?
      && (ok ==> State() == e.tables && out.bytes == old(out.bytes) + e.bytes)
    }

    constructor (env: Env, pools: Pools, tables: FnTables, fnIndex: map<Text, nat>, ghost symbols: seq<Text>)
      requires pools.Valid() && tables.Valid()
      requires forall x :: x in fnIndex <==> x in symbols
      requires forall x :: x in fnIndex ==> fnIndex[x] == IndexOf(symbols, x)
      ensures Valid() && this.env == env && this.pools == pools && this.tables == tables && this.symbols == symbols
    {
      this.env, this.pools, this.tables, this.fnIndex, this.symbols := env, pools, tables, fnIndex, symbols;
    }

    method WriteStr(out: OutBuffer, text: Text) returns (ok: bool)
      requires Valid()
      modifies pools, out
      ensures Valid() && Did(PutStr(text, old(State())), out, ok)
    {
      var r := pools.Istr(text);
      if r == None { return false; }
      out.Write(Le(r.value, 4));
      return true;
    }

    method WriteValue(out: OutBuffer, id: Text) returns (ok: bool)
      requires Valid()
      modifies tables, out
      ensures Valid() && Did(PutValue(id, old(State())), out, ok)
    {
      var r := tables.Vref(id);
      if r == None { return false; }
      out.Write(Le(r.value, 4));
      return true;
    }

    method WriteType(out: OutBuffer, hash: Text) returns (ok: bool)
      requires Valid()
      modifies tables, out
      ensures Valid() && Did(PutType(hash, old(State())), out, ok)
    {
      var r := tables.Tref(hash);
      if r == None { return false; }
      out.Write(Le(r.value, 4));
      return true;
    }

    method WriteData(out: OutBuffer, bytes: seq<Byte>) returns (ok: bool)
      requires Valid()
      modifies pools, out
      ensures Valid() && Did(PutData(bytes, old(State())), out, ok)
    {
      var r := pools.Idata(bytes);
      if r == None { return false; }
      out.Write(Le(r.value, 4));
      return true;
    }

    method WriteCount(out: OutBuffer, n: nat) returns (ok: bool)
      requires Valid()
      modifies out
      ensures Valid() && Did(PutCount(n, old(State())), out, ok)
    {
      if n >= U32_LIMIT { return false; }
      out.Write(Le(n, 4));
      return true;
    }

    /** Presence flag, then the text. */
    method WriteOptStr(out: OutBuffer, value: Option<Text>) returns (ok: bool)
      requires Valid()
      modifies pools, out
      ensures Valid() && Did(EncodeLeaf(env, symbols, KOptStr, OptStr(value), old(State())), out, ok)
    {
      match value
      case None =>
        out.Write([0]);
        return true;
      case Some(text) =>
        out.Write([1]);
        ok := WriteStr(out, text);
        assert ok ==> out.bytes == old(out.bytes) + ([1] + PutStr(text, old(State())).bytes);
    }

    method WriteOptValue(out: OutBuffer, value: Option<Text>) returns (ok: bool)
      requires Valid()
      modifies tables, out
      ensures Valid() && Did(EncodeLeaf(env, symbols, KOptValueId, OptValueId(value), old(State())), out, ok)
    {
      match value
      case None =>
        out.Write([0]);
        return true;
      case Some(id) =>
        out.Write([1]);
        ok := WriteValue(out, id);
        assert ok ==> out.bytes == old(out.bytes) + ([1] + PutValue(id, old(State())).bytes);
    }

    method WriteOperator(out: OutBuffer, opKind: Text) returns (ok: bool)
      requires Valid()
      modifies pools, out
      ensures Valid() && Did(PutOperator(env, opKind, old(State())), out, ok)
    {
      ok := WriteStr(out, opKind);
      if !ok { return; }
      match env.operatorColumns(opKind)
      case None => return false;
      case Some((verb, width, signed)) =>
        out.Write([verb, width, signed]);
        assert out.bytes == old(out.bytes) + (PutStr(opKind, old(State())).bytes + [verb, width, signed]);
    }

    method WriteTrap(out: OutBuffer, trap: Option<(Text, Text)>) returns (ok: bool)
      requires Valid()
      modifies pools, out
      ensures Valid() && Did(PutTrap(trap, old(State())), out, ok)
    {
      hide PutStr;
      match trap
      case None =>
        out.Write([0]);
        return true;
      case Some((condition, code)) =>
        ghost var e1 := PutStr(condition, old(State()));
        out.Write([1]);
        ok := WriteStr(out, condition);
        if !ok { return; }
        ok := WriteStr(out, code);
        if !ok { return; }
        ghost var e2 := PutStr(code, e1.tables);
        assert out.bytes == ((old(out.bytes) + [1]) + e1.bytes) + e2.bytes;
        assert out.bytes == old(out.bytes) + ([1] + (e1.bytes + e2.bytes));
    }

    method WriteIntText(out: OutBuffer, decimal: Text) returns (ok: bool)
      requires Valid()
      modifies out
      ensures Valid() && Did(PutIntText(decimal, old(State())), out, ok)
    {
      hide ParseI64, Decimal, Le;
      var parsed := ParseI64(decimal);
      ok := parsed.Some? && Decimal(parsed.value) == decimal;
      if ok { out.Write(Le(I64Bits(parsed.value), 8)); }
    }

    method WriteHex(out: OutBuffer, hex: Text) returns (ok: bool)
      requires Valid()
      modifies pools, out
      ensures Valid() && Did(PutHex(hex, old(State())), out, ok)
    {
      hide HexToBytes, BytesToHex, PutData;
      var bytes := HexToBytes(hex);
      ok := bytes.Some? && BytesToHex(bytes.value) == hex;
      if ok { ok := WriteData(out, bytes.value); }
    }

    method EncodeLeafField(out: OutBuffer, k: Kind, f: Field) returns (ok: bool)
      requires Valid()
      modifies pools, tables, out
      ensures Valid() && Did(EncodeLeaf(env, symbols, k, f, old(State())), out, ok)
    {
      hide PutStr, PutValue, PutType, PutData, PutOperator, PutTrap, PutIntText, PutHex, Le, IndexOf, Indexes;
      ok := false;
      match k
      case KValueId => if f.ValueId? { ok := WriteValue(out, f.id); }
      case KTypeHash => if f.TypeHash? { ok := WriteType(out, f.hash); }
      case KStr => if f.Str? { ok := WriteStr(out, f.text); }
      case KOptStr => if f.OptStr? { ok := WriteOptStr(out, f.optText); }
      case KOptValueId => if f.OptValueId? { ok := WriteOptValue(out, f.optId); }
      case KU8 => if f.U8? { out.Write([f.byte]); ok := true; }
      case KU32 => if f.U32? { ok := WriteCount(out, f.word); }
      case KU64 => if f.U64? && f.wide < U64_LIMIT { out.Write(Le(f.wide, 8)); ok := true; }
      case KFlag => if f.Flag? { out.Write([if f.flag then 1 else 0]); ok := true; }
      case KSlot => if f.Slot? { ok := WriteCount(out, f.slot); }
      case KOperator => if f.Operator? { ok := WriteOperator(out, f.opKind); }
      case KTrap => if f.Trap? { ok := WriteTrap(out, f.trap); }
      case KIntText => if f.IntText? { ok := WriteIntText(out, f.decimal); }
      case KHex => if f.Hex? { ok := WriteHex(out, f.hex); }
      case KCallTarget =>
        if f.CallTarget? && f.symbol in fnIndex && fnIndex[f.symbol] < U32_LIMIT {
          out.Write(Le(fnIndex[f.symbol], 4));
          ok := true;
        }
      case KPlace =>
      case KBlock =>
      case KOps =>
      case KRows(_) =>
    }

    /** The recursive encode walk computes exactly what the specification says
        for the tables it started with. */
    method EncodeNested(out: OutBuffer, k: Kind, f: Field) returns (ok: bool)
      requires Valid()
      modifies pools, tables, out
      ensures Valid() && Did(EncodeField(env, symbols, k, f, old(State())), out, ok)
      decreases f
    {
      hide EncodeLeaf, EncodeFields, EncodeOps, EncodeRows, PlaceShape, PutValue, Le, IndexOf, Indexes;
      ok := false;
      match k
      case KPlace =>
        if f.Place? { ok := EncodePlace(out, f.placeKind, f.placeFields); }
      case KBlock =>
        if f.Block? {
          ok := EncodeCountedOps(out, f.operations);
          if !ok { return; }
          ghost var e1 := EncodeOps(env, symbols, f.operations, old(State()));
          ok := WriteValue(out, f.result);
          if !ok { return; }
          ghost var e2 := PutValue(f.result, e1.tables);
          ghost var n := Le(|f.operations|, 4);
          assert (old(out.bytes) + (n + e1.bytes)) + e2.bytes == old(out.bytes) + (n + (e1.bytes + e2.bytes));
        }
      case KOps =>
        if f.Ops? { ok := EncodeCountedOps(out, f.ops); }
      case KRows(row) =>
        if f.Rows? { ok := EncodeCountedRows(out, row, f.rows); }
      case _ =>
        ok := EncodeLeafField(out, k, f);
    }

    method EncodePlace(out: OutBuffer, placeKind: Byte, placeFields: seq<Field>) returns (ok: bool)
      requires Valid()
      modifies pools, tables, out
      ensures Valid() && Did(EncodeField(env, symbols, KPlace, Place(placeKind, placeFields), old(State())), out, ok)
      decreases placeFields, 1
    {
      hide EncodeFields, PlaceShape, Indexes;
      var shape := PlaceShape(placeKind);
      if shape == None { return false; }
      out.Write([placeKind]);
      ok := EncodeFieldList(out, shape.value, placeFields);
      if !ok { return; }
      ghost var e := EncodeFields(env, symbols, shape.value, placeFields, old(State()));
      assert (old(out.bytes) + [placeKind]) + e.bytes == old(out.bytes) + ([placeKind] + e.bytes);
    }

    method EncodeCountedRows(out: OutBuffer, row: seq<Kind>, rows: seq<Row>) returns (ok: bool)
      requires Valid()
      modifies pools, tables, out
      ensures Valid() && Did(EncodeField(env, symbols, KRows(row), Rows(rows), old(State())), out, ok)
      decreases rows, 1
    {
      hide EncodeRows, Indexes;
      ok := WriteCount(out, |rows|);
      if !ok { return; }
      ok := EncodeRowList(out, row, rows);
      if !ok { return; }
      ghost var e := EncodeRows(env, symbols, row, rows, old(State()));
      assert (old(out.bytes) + Le(|rows|, 4)) + e.bytes == old(out.bytes) + (Le(|rows|, 4) + e.bytes);
    }

    method EncodeCountedOps(out: OutBuffer, ops: seq<Op>) returns (ok: bool)
      requires Valid()
      modifies pools, tables, out
      ensures Valid() && ok == (|ops| < U32_LIMIT && EncodeOps(env, symbols, ops, old(State())).Wrote?)
      ensures ok ==> State() == EncodeOps(env, symbols, ops, old(State())).tables
      ensures ok ==> out.bytes == old(out.bytes) + (Le(|ops|, 4) + EncodeOps(env, symbols, ops, old(State())).bytes)
      decreases ops, 1
    {
      hide EncodeOps;
      ok := WriteCount(out, |ops|);
      if !ok { return; }
      ok := EncodeOperations(out, ops);
      if !ok { return; }
      ghost var e := EncodeOps(env, symbols, ops, old(State()));
      assert (old(out.bytes) + Le(|ops|, 4)) + e.bytes == old(out.bytes) + (Le(|ops|, 4) + e.bytes);
    }

    method EncodeFieldList(out: OutBuffer, shape: seq<Kind>, fields: seq<Field>) returns (ok: bool)
      requires Valid()
      modifies pools, tables, out
      ensures Valid() && Did(EncodeFields(env, symbols, shape, fields, old(State())), out, ok)
      decreases fields, 0
    {
      hide EncodeField, EncodeFields;
      FieldsEnds(env, symbols, shape, fields);
      if |shape| != |fields| { return false; }
      ghost var sofar: seq<Byte> := [];
      var i := 0;
      assert shape[0..] == shape && fields[0..] == fields;
      AfterNothing(EncodeFields(env, symbols, shape, fields, old(State())));
      while i < |fields|
        invariant 0 <= i <= |fields| && Valid()
        invariant out.bytes == old(out.bytes) + sofar
        invariant EncodeFields(env, symbols, shape, fields, old(State()))
                  == After(sofar, EncodeFields(env, symbols, shape[i..], fields[i..], State()))
      {
        FieldsUnfold(env, symbols, shape, fields, i, State());
        ghost var e := EncodeField(env, symbols, shape[i], fields[i], State());
        ok := EncodeNested(out, shape[i], fields[i]);
        if !ok { return; }
        AfterTwice(sofar, e.bytes, EncodeFields(env, symbols, shape[i + 1..], fields[i + 1..], e.tables));
        sofar := sofar + e.bytes;
        i := i + 1;
      }
      assert fields[i..] == [] && shape[i..] == [];
      ok := true;
    }

    method EncodeRowList(out: OutBuffer, shape: seq<Kind>, rows: seq<Row>) returns (ok: bool)
      requires Valid()
      modifies pools, tables, out
      ensures Valid() && Did(EncodeRows(env, symbols, shape, rows, old(State())), out, ok)
      decreases rows, 0
    {
      hide EncodeFields, EncodeRows;
      RowsEnd(env, symbols, shape);
      ghost var sofar: seq<Byte> := [];
      var i := 0;
      assert rows[0..] == rows;
      AfterNothing(EncodeRows(env, symbols, shape, rows, old(State())));
      while i < |rows|
        invariant 0 <= i <= |rows| && Valid()
        invariant out.bytes == old(out.bytes) + sofar
        invariant EncodeRows(env, symbols, shape, rows, old(State()))
                  == After(sofar, EncodeRows(env, symbols, shape, rows[i..], State()))
      {
        RowsUnfold(env, symbols, shape, rows, i, State());
        ghost var e := EncodeFields(env, symbols, shape, rows[i].fields, State());
        ok := EncodeFieldList(out, shape, rows[i].fields);
        if !ok { return; }
        AfterTwice(sofar, e.bytes, EncodeRows(env, symbols, shape, rows[i + 1..], e.tables));
        sofar := sofar + e.bytes;
        i := i + 1;
      }
      assert rows[i..] == [];
      ok := true;
    }

    method EncodeOperations(out: OutBuffer, ops: seq<Op>) returns (ok: bool)
      requires Valid()
      modifies pools, tables, out
      ensures Valid() && Did(EncodeOps(env, symbols, ops, old(State())), out, ok)
      decreases ops, 0
    {
      hide EncodeFields, EncodeOps, WriteShape;
      OpsEnd(env, symbols);
      ghost var sofar: seq<Byte> := [];
      var i := 0;
      assert ops[0..] == ops;
      AfterNothing(EncodeOps(env, symbols, ops, old(State())));
      while i < |ops|
        invariant 0 <= i <= |ops| && Valid()
        invariant out.bytes == old(out.bytes) + sofar
        invariant EncodeOps(env, symbols, ops, old(State()))
                  == After(sofar, EncodeOps(env, symbols, ops[i..], State()))
      {
        OpsUnfold(env, symbols, ops, i, State());
        var shape := WriteShape(ops[i].code);
        if shape == None { return false; }
        ghost var e := EncodeFields(env, symbols, shape.value, ops[i].fields, State());
        out.Write([ops[i].code]);
        ok := EncodeFieldList(out, shape.value, ops[i].fields);
        if !ok { return; }
        AfterTwice(sofar, [ops[i].code] + e.bytes, EncodeOps(env, symbols, ops[i + 1..], e.tables));
        sofar := sofar + ([ops[i].code] + e.bytes);
        i := i + 1;
      }
      assert ops[i..] == [];
      ok := true;
    }
  }
}
