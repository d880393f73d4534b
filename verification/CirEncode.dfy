/** Specification of the CIR encoder: what bytes an encode walk appends and how
    the interned tables grow while it runs. */
module CirEncode {
  import opened Wrappers
  import opened CirBytes
  import opened CirIr

  /** The two file-global pools and the two per-function tables. */
  datatype Tables = Tables(strings: seq<Text>, data: seq<seq<Byte>>, values: seq<Text>, types: seq<Text>)

  ghost predicate Grows(t: Tables, u: Tables) {
    && t.strings <= u.strings
    && t.data <= u.data
    && t.values <= u.values
    && t.types <= u.types
  }

  datatype Enc = Refused | Wrote(bytes: seq<Byte>, tables: Tables) {
    predicate IsFailure() { Refused? }
    function PropagateFailure(): Enc
      requires Refused?
    {
      Refused
    }
    function Extract(): (seq<Byte>, Tables)
      requires Wrote?
    {
      (bytes, tables)
    }
  }

  // ---------------------------------------------------------------- interning

  function IndexOf<T(==)>(s: seq<T>, x: T): (i: nat)
    requires x in s
    ensures i < |s| && s[i] == x
    ensures forall j :: 0 <= j < i ==> s[j] != x
  {
    if s[0] == x then 0 else 1 + IndexOf(s[1..], x)
  }

  /** Index of `x` in the table, appending it when it is new; `None` when the
      table would outgrow a u32 index. */
  function Intern<T(==)>(s: seq<T>, x: T): (r: Option<(nat, seq<T>)>)
    ensures r.Some? ==>
              && s <= r.value.1
              && r.value.0 < U32_LIMIT
              && r.value.0 < |r.value.1|
              && r.value.1[r.value.0] == x
  {
    var i := if x in s then IndexOf(s, x) else |s|;
    if i < U32_LIMIT then Some((i, if x in s then s else s + [x])) else None
  }

  function PutStr(text: Text, t: Tables): (r: Enc)
    ensures r.Wrote? ==> Grows(t, r.tables)
  {
    match Intern(t.strings, text)
    case None => Refused
    case Some((i, strings)) => Wrote(Le(i, 4), t.(strings := strings))
  }

  function PutValue(id: Text, t: Tables): (r: Enc)
    ensures r.Wrote? ==> Grows(t, r.tables)
  {
    match Intern(t.values, id)
    case None => Refused
    case Some((i, values)) => Wrote(Le(i, 4), t.(values := values))
  }

  function PutType(hash: Text, t: Tables): (r: Enc)
    ensures r.Wrote? ==> Grows(t, r.tables)
  {
    match Intern(t.types, hash)
    case None => Refused
    case Some((i, types)) => Wrote(Le(i, 4), t.(types := types))
  }

  function PutData(bytes: seq<Byte>, t: Tables): (r: Enc)
    ensures r.Wrote? ==> Grows(t, r.tables)
  {
    match Intern(t.data, bytes)
    case None => Refused
    case Some((i, data)) => Wrote(Le(i, 4), t.(data := data))
  }

  function PutCount(n: nat, t: Tables): (r: Enc)
    ensures r.Wrote? ==> Grows(t, r.tables)
  {
    if n < U32_LIMIT then Wrote(Le(n, 4), t) else Refused
  }

  // ---------------------------------------------------------------- leaf fields

  /** Fields that hold no nested operation, place or row. */
  function EncodeLeaf(env: Env, symbols: seq<Text>, k: Kind, f: Field, t: Tables): (r: Enc)
    ensures r.Wrote? ==> Grows(t, r.tables)
  {
    match k
    case KValueId => if f.ValueId? then PutValue(f.id, t) else Refused
    case KTypeHash => if f.TypeHash? then PutType(f.hash, t) else Refused
    case KStr => if f.Str? then PutStr(f.text, t) else Refused
    case KOptStr =>
      if !f.OptStr? then Refused
      else if f.optText.None? then Wrote([0], t)
      else
        var (b, t1) :- PutStr(f.optText.value, t);
        Wrote([1] + b, t1)
    case KOptValueId =>
      if !f.OptValueId? then Refused
      else if f.optId.None? then Wrote([0], t)
      else
        var (b, t1) :- PutValue(f.optId.value, t);
        Wrote([1] + b, t1)
    case KU8 => if f.U8? then Wrote([f.byte], t) else Refused
    case KU32 => if f.U32? then PutCount(f.word, t) else Refused
    case KU64 => if f.U64? && f.wide < U64_LIMIT then Wrote(Le(f.wide, 8), t) else Refused
    case KFlag => if f.Flag? then Wrote([if f.flag then 1 else 0], t) else Refused
    case KSlot => if f.Slot? then PutCount(f.slot, t) else Refused
    case KOperator => if f.Operator? then PutOperator(env, f.opKind, t) else Refused
    case KTrap => if f.Trap? then PutTrap(f.trap, t) else Refused
    case KIntText => if f.IntText? then PutIntText(f.decimal, t) else Refused
    case KHex => if f.Hex? then PutHex(f.hex, t) else Refused
    case KCallTarget =>
      if f.CallTarget? && f.symbol in symbols && IndexOf(symbols, f.symbol) < U32_LIMIT
      then Wrote(Le(IndexOf(symbols, f.symbol), 4), t) else Refused
    case KPlace => Refused
    case KBlock => Refused
    case KOps => Refused
    case KRows(_) => Refused
  }

  /** Operator kind followed by its verb, width and sign columns. */
  function PutOperator(env: Env, opKind: Text, t: Tables): (r: Enc)
    ensures r.Wrote? ==> Grows(t, r.tables)
  {
    var (b, t1) :- PutStr(opKind, t);
    match env.operatorColumns(opKind)
    case None => Refused
    case Some((verb, width, signed)) => Wrote(b + [verb, width, signed], t1)
  }

  function PutTrap(trap: Option<(Text, Text)>, t: Tables): (r: Enc)
    ensures r.Wrote? ==> Grows(t, r.tables)
  {
    match trap
    case None => Wrote([0], t)
    case Some((condition, code)) =>
      var (b1, t1) :- PutStr(condition, t);
      var (b2, t2) :- PutStr(code, t1);
      Wrote([1] + (b1 + b2), t2)
  }

  /** Only the canonical decimal text of an `i64` is written. */
  function PutIntText(decimal: Text, t: Tables): (r: Enc)
    ensures r.Wrote? ==> r.tables == t
  {
    match ParseI64(decimal)
    case None => Refused
    case Some(i) => if Decimal(i) == decimal then Wrote(Le(I64Bits(i), 8), t) else Refused
  }

  /** Only canonical lower-case hexadecimal is written. */
  function PutHex(hex: Text, t: Tables): (r: Enc)
    ensures r.Wrote? ==> Grows(t, r.tables)
  {
    match HexToBytes(hex)
    case None => Refused
    case Some(bytes) => if BytesToHex(bytes) == hex then PutData(bytes, t) else Refused
  }

  // ---------------------------------------------------------------- nested fields

  function EncodeField(env: Env, symbols: seq<Text>, k: Kind, f: Field, t: Tables): (r: Enc)
    ensures r.Wrote? ==> Grows(t, r.tables)
    decreases f
  {
    match k
    case KPlace =>
      if !f.Place? then Refused
      else
        (match PlaceShape(f.placeKind)
         case None => Refused
         case Some(shape) =>
           var (b, t1) :- EncodeFields(env, symbols, shape, f.placeFields, t);
           Wrote([f.placeKind] + b, t1))
    case KBlock =>
      if !f.Block? then Refused
      else
        var (b0, t0) :- PutCount(|f.operations|, t);
        var (b1, t1) :- EncodeOps(env, symbols, f.operations, t0);
        var (b2, t2) :- PutValue(f.result, t1);
        Wrote(b0 + (b1 + b2), t2)
    case KOps =>
      if !f.Ops? then Refused
      else
        var (b0, t0) :- PutCount(|f.ops|, t);
        var (b1, t1) :- EncodeOps(env, symbols, f.ops, t0);
        Wrote(b0 + b1, t1)
    case KRows(row) =>
      if !f.Rows? then Refused
      else
        var (b0, t0) :- PutCount(|f.rows|, t);
        var (b1, t1) :- EncodeRows(env, symbols, row, f.rows, t0);
        Wrote(b0 + b1, t1)
    case _ => EncodeLeaf(env, symbols, k, f, t)
  }

  function EncodeFields(env: Env, symbols: seq<Text>, shape: seq<Kind>, fields: seq<Field>, t: Tables): (r: Enc)
    ensures r.Wrote? ==> Grows(t, r.tables)
    decreases fields
  {
    if |shape| != |fields| then Refused
    else if fields == [] then Wrote([], t)
    else
      var (b1, t1) :- EncodeField(env, symbols, shape[0], fields[0], t);
      var (b2, t2) :- EncodeFields(env, symbols, shape[1..], fields[1..], t1);
      Wrote(b1 + b2, t2)
  }

  function EncodeRows(env: Env, symbols: seq<Text>, shape: seq<Kind>, rows: seq<Row>, t: Tables): (r: Enc)
    ensures r.Wrote? ==> Grows(t, r.tables)
    decreases rows
  {
    if rows == [] then Wrote([], t)
    else
      var (b1, t1) :- EncodeFields(env, symbols, shape, rows[0].fields, t);
      var (b2, t2) :- EncodeRows(env, symbols, shape, rows[1..], t1);
      Wrote(b1 + b2, t2)
  }

  function EncodeOps(env: Env, symbols: seq<Text>, ops: seq<Op>, t: Tables): (r: Enc)
    ensures r.Wrote? ==> Grows(t, r.tables)
    decreases ops
  {
    if ops == [] then Wrote([], t)
    else
      match WriteShape(ops[0].code)
      case None => Refused
      case Some(shape) =>
        var (b1, t1) :- EncodeFields(env, symbols, shape, ops[0].fields, t);
        var (b2, t2) :- EncodeOps(env, symbols, ops[1..], t1);
        Wrote([ops[0].code] + (b1 + b2), t2)
  }
}
