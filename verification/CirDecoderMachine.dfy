/** The decoder as it runs: a cursor over the bytes and loops that collect
    counted items. */
module CirDecoderMachine {
  import opened Wrappers
  import opened Traversal
  import opened CirBytes
  import opened CirIr
  import opened CirDecode
  import opened CirFunction
  import opened CirFile

  class Reader {
    const bytes: seq<Byte>
    var pos: nat

    ghost predicate Valid()
      reads this
    {
      pos <= |bytes|
    }

    /** What is left to read. */
    ghost function Rest(): seq<Byte>
      reads this
      requires Valid()
    {
      bytes[pos..]
    }

    constructor (bytes: seq<Byte>)
      ensures Valid() && Rest() == bytes && this.bytes == bytes
    {
      this.bytes, pos := bytes, 0;
    }

    method Take(len: nat) returns (r: Option<seq<Byte>>)
      requires Valid()
      modifies this
      ensures Valid()
      ensures r.Some? <==> ReadBytes(len, old(Rest())).Got?
      ensures r.Some? ==> ReadBytes(len, old(Rest())) == Got(r.value, Rest())
    {
      if pos + len > |bytes| {
        return None;
      }
      assert bytes[pos..][..len] == bytes[pos..pos + len];
      assert bytes[pos..][len..] == bytes[pos + len..];
      r := Some(bytes[pos..pos + len]);
      pos := pos + len;
    }

    /** A little-endian integer of `k` bytes. */
    method Int(k: nat) returns (r: Option<nat>)
      requires Valid()
      modifies this
      ensures Valid()
      ensures r.Some? <==> ReadLe(k, old(Rest())).Got?
      ensures r.Some? ==> ReadLe(k, old(Rest())) == Got(r.value, Rest())
    {
      var b := Take(k);
      r := if b.None? then None else Some(FromLe(b.value));
    }

    method U8() returns (r: Option<Byte>)
      requires Valid()
      modifies this
      ensures Valid()
      ensures r.Some? <==> ReadByte(old(Rest())).Got?
      ensures r.Some? ==> ReadByte(old(Rest())) == Got(r.value, Rest())
    {
      if pos == |bytes| {
        return None;
      }
      r := Some(bytes[pos]);
      pos := pos + 1;
    }

    method Entry<T>(table: seq<T>) returns (r: Option<T>)
      requires Valid()
      modifies this
      ensures Valid()
      ensures r.Some? <==> Lookup(table, old(Rest())).Got?
      ensures r.Some? ==> Lookup(table, old(Rest())) == Got(r.value, Rest())
    {
      var i := Int(4);
      if i.None? || i.value >= |table| {
        return None;
      }
      r := Some(table[i.value]);
    }
  }

  /** `d` with `sofar` already collected in front of it. */
  function Onto<T>(sofar: seq<T>, d: Dec<seq<T>>): Dec<seq<T>> {
    match d
    case Fail => Fail
    case Got(v, rest) => Got(sofar + v, rest)
  }

  lemma OntoNothing<T>(d: Dec<seq<T>>)
    ensures Onto([], d) == d
  {
    if d.Got? {
      assert [] + d.value == d.value;
    }
  }

  lemma OntoTwice<T>(a: seq<T>, b: seq<T>, d: Dec<seq<T>>)
    ensures Onto(a, Onto(b, d)) == Onto(a + b, d)
  {
    if d.Got? {
      assert a + (b + d.value) == (a + b) + d.value;
    }
  }

  lemma FieldsUnfold(env: Env, scope: Scope, shape: seq<Kind>, i: nat, s: seq<Byte>)
    requires i < |shape|
    ensures DecodeFields(env, scope, shape[i..], s)
            == match DecodeField(env, scope, shape[i], s)
               case Fail => Fail
               case Got(f, s1) => Onto([f], DecodeFields(env, scope, shape[i + 1..], s1))
  {
    hide DecodeField;
    assert shape[i..][1..] == shape[i + 1..];
  }

  lemma RowsUnfold(env: Env, scope: Scope, shape: seq<Kind>, n: nat, s: seq<Byte>)
    requires n > 0
    ensures DecodeRows(env, scope, shape, n, s)
            == match DecodeFields(env, scope, shape, s)
               case Fail => Fail
               case Got(f, s1) => Onto([Row(f)], DecodeRows(env, scope, shape, n - 1, s1))
  {
    hide DecodeFields;
  }

  lemma OpsUnfold(env: Env, scope: Scope, n: nat, s: seq<Byte>)
    requires n > 0
    ensures DecodeOps(env, scope, n, s)
            == match ReadByte(s)
               case Fail => Fail
               case Got(code, s1) =>
                 match ReadShape(code)
                 case None => Fail
                 case Some(shape) =>
                   match DecodeFields(env, scope, shape, s1)
                   case Fail => Fail
                   case Got(f, s2) => Onto([Op(code, f)], DecodeOps(env, scope, n - 1, s2))
  {
    hide DecodeFields, ReadShape;
  }

  lemma Ends(env: Env, scope: Scope, shape: seq<Kind>)
    ensures forall s :: DecodeFields(env, scope, [], s) == Got([], s)
    ensures forall s :: DecodeRows(env, scope, shape, 0, s) == Got([], s)
    ensures forall s :: DecodeOps(env, scope, 0, s) == Got([], s)
  {
  }

  class FnDecoder {
    const env: Env
    const strings: seq<Text>
    const data: seq<seq<Byte>>
    const symbols: seq<Text>
    var types: seq<Text>
    var values: seq<Text>

    constructor (env: Env, strings: seq<Text>, data: seq<seq<Byte>>, symbols: seq<Text>)
      ensures Now() == Scope(strings, data, symbols, [], []) && this.env == env
    {
      this.env, this.strings, this.data, this.symbols, types, values := env, strings, data, symbols, [], [];
    }

    ghost function Now(): Scope
      reads this
    {
      Scope(strings, data, symbols, values, types)
    }

    ghost predicate Did<T>(d: Dec<T>, reader: Reader, r: Option<T>)
      reads reader
    {
      && reader.Valid()
      && (r.Some? <==> d.Got?)
      && (r.Some? ==> d == Got(r.value, reader.Rest()))
    }

    method ROptStr(reader: Reader) returns (r: Option<Field>)
      requires reader.Valid()
      modifies reader
      ensures Did(DecodeLeaf(env, Now(), KOptStr, old(reader.Rest())), reader, r)
    {
      hide Lookup;
      var flag := reader.U8();
      if flag == Some(0) { return Some(OptStr(None)); }
      if flag != Some(1) { return None; }
      var text := reader.Entry(strings);
      r := if text.None? then None else Some(OptStr(text));
    }

    method ROptValue(reader: Reader) returns (r: Option<Field>)
      requires reader.Valid()
      modifies reader
      ensures Did(DecodeLeaf(env, Now(), KOptValueId, old(reader.Rest())), reader, r)
    {
      hide Lookup;
      var flag := reader.U8();
      if flag == Some(0) { return Some(OptValueId(None)); }
      if flag != Some(1) { return None; }
      var id := reader.Entry(values);
      r := if id.None? then None else Some(OptValueId(id));
    }

    /** The columns stored for an operator must be the ones its kind gives. */
    method ROperator(reader: Reader) returns (r: Option<Field>)
      requires reader.Valid()
      modifies reader
      ensures Did(DecodeLeaf(env, Now(), KOperator, old(reader.Rest())), reader, r)
    {
      hide Lookup, ReadBytes;
      var opKind := reader.Entry(strings);
      if opKind.None? { return None; }
      ghost var s1 := reader.Rest();
      var columns := reader.Take(3);
      if columns.None? { return None; }
      assert |columns.value| == 3 by { var _ := ReadBytes(3, s1); }
      if env.operatorColumns(opKind.value) != Some((columns.value[0], columns.value[1], columns.value[2])) { return None; }
      r := Some(Operator(opKind.value));
    }

    method RTrap(reader: Reader) returns (r: Option<Field>)
      requires reader.Valid()
      modifies reader
      ensures Did(DecodeLeaf(env, Now(), KTrap, old(reader.Rest())), reader, r)
    {
      hide Lookup;
      var flag := reader.U8();
      if flag == Some(0) { return Some(Trap(None)); }
      if flag != Some(1) { return None; }
      var condition := reader.Entry(strings);
      if condition.None? { return None; }
      var code := reader.Entry(strings);
      r := if code.None? then None else Some(Trap(Some((condition.value, code.value))));
    }

    method RIntText(reader: Reader) returns (r: Option<Field>)
      requires reader.Valid()
      modifies reader
      ensures Did(DecodeLeaf(env, Now(), KIntText, old(reader.Rest())), reader, r)
    {
      hide Decimal, FromLe;
      ghost var s := reader.Rest();
      var bits := reader.Int(8);
      if bits.None? { return None; }
      Widths();
      FromLeBound(s[..8]);
      r := Some(IntText(Decimal(I64Value(bits.value))));
    }

    method RLeaf(reader: Reader, k: Kind) returns (r: Option<Field>)
      requires reader.Valid()
      modifies reader
      ensures Did(DecodeLeaf(env, Now(), k, old(reader.Rest())), reader, r)
    {
      hide Lookup, ReadLe, ReadByte, BytesToHex, Decimal, FromLe;
      match k
      case KValueId => var x := reader.Entry(values); r := if x.None? then None else Some(ValueId(x.value));
      case KTypeHash => var x := reader.Entry(types); r := if x.None? then None else Some(TypeHash(x.value));
      case KStr => var x := reader.Entry(strings); r := if x.None? then None else Some(Str(x.value));
      case KOptStr => r := ROptStr(reader);
      case KOptValueId => r := ROptValue(reader);
      case KU8 => var x := reader.U8(); r := if x.None? then None else Some(Field.U8(x.value));
      case KU32 => var x := reader.Int(4); r := if x.None? then None else Some(U32(x.value));
      case KU64 => var x := reader.Int(8); r := if x.None? then None else Some(U64(x.value));
      case KFlag => var x := reader.U8(); r := if x.None? then None else Some(Flag(x.value != 0));
      case KSlot => var x := reader.Int(4); r := if x.None? then None else Some(Slot(x.value));
      case KOperator => r := ROperator(reader);
      case KTrap => r := RTrap(reader);
      case KIntText => r := RIntText(reader);
      case KHex => var x := reader.Entry(data); r := if x.None? then None else Some(Hex(BytesToHex(x.value)));
      case KCallTarget => var x := reader.Entry(symbols); r := if x.None? then None else Some(CallTarget(x.value));
      case KPlace => r := None;
      case KBlock => r := None;
      case KOps => r := None;
      case KRows(_) => r := None;
    }

    method RField(reader: Reader, k: Kind) returns (r: Option<Field>)
      requires reader.Valid()
      modifies reader
      ensures Did(DecodeField(env, Now(), k, old(reader.Rest())), reader, r)
      decreases |reader.bytes| - reader.pos, 0, 0
    {
      hide DecodeLeaf, DecodeFields, DecodeRows, DecodeOps, ReadLe, ReadByte, Lookup, ReadPlaceShape;
      match k
      case KPlace =>
        var placeKind := reader.U8();
        if placeKind.None? { return None; }
        var shape := ReadPlaceShape(placeKind.value);
        if shape.None? { return None; }
        assert reader.Rest() == reader.bytes[reader.pos..];
        var fields := RFields(reader, shape.value);
        r := if fields.None? then None else Some(Place(placeKind.value, fields.value));
      case KBlock =>
        var n := reader.Int(4);
        if n.None? { return None; }
        var ops := ROps(reader, n.value);
        if ops.None? { return None; }
        var result := reader.Entry(values);
        r := if result.None? then None else Some(Block(ops.value, result.value));
      case KOps =>
        var n := reader.Int(4);
        if n.None? { return None; }
        var ops := ROps(reader, n.value);
        r := if ops.None? then None else Some(Ops(ops.value));
      case KRows(row) =>
        var n := reader.Int(4);
        if n.None? { return None; }
        var rows := RRows(reader, row, n.value);
        r := if rows.None? then None else Some(Rows(rows.value));
      case _ => r := RLeaf(reader, k);
    }

    method RFields(reader: Reader, shape: seq<Kind>) returns (r: Option<seq<Field>>)
      requires reader.Valid()
      modifies reader
      ensures Did(DecodeFields(env, Now(), shape, old(reader.Rest())), reader, r)
      decreases |reader.bytes| - reader.pos, 1, 0
    {
      hide DecodeField, DecodeFields;
      Ends(env, Now(), shape);
      ghost var goal := DecodeFields(env, Now(), shape, reader.Rest());
      OntoNothing(goal);
      var fields: seq<Field> := [];
      var i := 0;
      assert shape[0..] == shape;
      while i < |shape|
        invariant 0 <= i <= |shape| && reader.Valid() && reader.pos >= old(reader.pos)
        invariant goal == Onto(fields, DecodeFields(env, Now(), shape[i..], reader.Rest()))
      {
        ghost var s := reader.Rest();
        FieldsUnfold(env, Now(), shape, i, s);
        var f := RField(reader, shape[i]);
        if f.None? { return None; }
        OntoTwice(fields, [f.value], DecodeFields(env, Now(), shape[i + 1..], reader.Rest()));
        assert |reader.Rest()| < |s|;
        fields := fields + [f.value];
        i := i + 1;
      }
      assert shape[i..] == [] && fields + [] == fields;
      r := Some(fields);
    }

    method RRows(reader: Reader, shape: seq<Kind>, count: nat) returns (r: Option<seq<Row>>)
      requires reader.Valid()
      modifies reader
      ensures Did(DecodeRows(env, Now(), shape, count, old(reader.Rest())), reader, r)
      decreases |reader.bytes| - reader.pos, 2, 0
    {
      hide DecodeFields, DecodeRows;
      Ends(env, Now(), shape);
      ghost var goal := DecodeRows(env, Now(), shape, count, reader.Rest());
      OntoNothing(goal);
      var rows: seq<Row> := [];
      var i := 0;
      while i < count
        invariant 0 <= i <= count && reader.Valid() && reader.pos >= old(reader.pos)
        invariant goal == Onto(rows, DecodeRows(env, Now(), shape, count - i, reader.Rest()))
      {
        ghost var s := reader.Rest();
        RowsUnfold(env, Now(), shape, count - i, s);
        var fields := RFields(reader, shape);
        if fields.None? { return None; }
        OntoTwice(rows, [Row(fields.value)], DecodeRows(env, Now(), shape, count - i - 1, reader.Rest()));
        assert |reader.Rest()| <= |s|;
        rows := rows + [Row(fields.value)];
        i := i + 1;
      }
      assert rows + [] == rows;
      r := Some(rows);
    }

    method ROps(reader: Reader, count: nat) returns (r: Option<seq<Op>>)
      requires reader.Valid()
      modifies reader
      ensures Did(DecodeOps(env, Now(), count, old(reader.Rest())), reader, r)
      decreases |reader.bytes| - reader.pos, 2, 0
    {
      hide DecodeFields, DecodeOps, ReadShape, ReadByte;
      Ends(env, Now(), []);
      ghost var goal := DecodeOps(env, Now(), count, reader.Rest());
      OntoNothing(goal);
      var operations: seq<Op> := [];
      var i := 0;
      while i < count
        invariant 0 <= i <= count && reader.Valid() && reader.pos >= old(reader.pos)
        invariant goal == Onto(operations, DecodeOps(env, Now(), count - i, reader.Rest()))
      {
        ghost var s := reader.Rest();
        OpsUnfold(env, Now(), count - i, s);
        var code := reader.U8();
        if code.None? { return None; }
        assert |reader.Rest()| < |s|;
        var shape := ReadShape(code.value);
        if shape.None? { return None; }
        ghost var s1 := reader.Rest();
        var fields := RFields(reader, shape.value);
        if fields.None? { return None; }
        assert |reader.Rest()| <= |s1|;
        OntoTwice(operations, [Op(code.value, fields.value)], DecodeOps(env, Now(), count - i - 1, reader.Rest()));
        operations := operations + [Op(code.value, fields.value)];
        i := i + 1;
      }
      assert operations + [] == operations;
      r := Some(operations);
    }
  }
}
