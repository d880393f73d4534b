/** Specification of the CIR decoder for operations, places and blocks. */
module CirDecode {
  import opened Wrappers
  import opened CirBytes
  import opened CirIr

  /** What a function decoder resolves indices against. */
  datatype Scope = Scope(strings: seq<Text>, data: seq<seq<Byte>>, symbols: seq<Text>,
                         values: seq<Text>, types: seq<Text>)

  /** Field order read after each opcode. */
  function ReadShape(code: Byte): Option<seq<Kind>> {
    match code
    // param, const_i64, const_bool, const_unit
    case 0 => Some([KValueId, KSlot, KTypeHash])
    case 1 => Some([KValueId, KIntText, KTypeHash])
    case 2 => Some([KValueId, KFlag, KTypeHash])
    case 3 => Some([KValueId, KTypeHash])
    // unary, int_cast, binary, call
    case 4 => Some([KValueId, KOperator, KValueId, KTypeHash])
    case 5 => Some([KValueId, KValueId, KTypeHash])
    case 6 => Some([KValueId, KOperator, KValueId, KValueId, KTypeHash, KTrap])
    case 7 => Some([KValueId, KCallTarget, KOptStr, KRows([KValueId]), KOptValueId, KTypeHash])
    // if, case, fold, loop
    case 8 => Some([KValueId, KValueId, KBlock, KBlock, KTypeHash])
    case 9 => Some([KValueId, KValueId, KTypeHash,
                    KRows([KStr, KOptStr, KU64, KTypeHash, KU64, KBlock]), KTypeHash])
    case 10 => Some([KValueId, KValueId, KTypeHash, KValueId, KValueId, KSlot, KSlot, KSlot,
                     KBlock, KTypeHash, KTypeHash, KTypeHash])
    case 11 => Some([KValueId, KSlot, KValueId, KBlock, KBlock, KTypeHash, KTypeHash])
    // borrow_shared, borrow_mut
    case 12 => Some([KValueId, KValueId, KStr, KTypeHash, KTypeHash])
    case 13 => Some([KValueId, KValueId, KStr, KTypeHash, KTypeHash])
    // deref_shared, deref_mut, deref_box, unbox_move
    case 14 => Some([KValueId, KValueId, KTypeHash])
    case 15 => Some([KValueId, KValueId, KTypeHash])
    case 16 => Some([KValueId, KValueId, KTypeHash, KTypeHash])
    case 17 => Some([KValueId, KValueId, KTypeHash, KTypeHash, KSlot])
    // heap_alloc, ptr_cast, deref_raw
    case 18 => Some([KValueId, KU64, KU64, KTypeHash, KTypeHash])
    case 19 => Some([KValueId, KValueId, KTypeHash, KTypeHash])
    case 20 => Some([KValueId, KValueId, KTypeHash, KTypeHash, KFlag])
    // addr_of_{param, local, field, enum_payload, index}
    case 21 => Some([KValueId, KPlace])
    case 22 => Some([KValueId, KPlace])
    case 23 => Some([KValueId, KPlace])
    case 24 => Some([KValueId, KPlace])
    case 25 => Some([KValueId, KPlace])
    // static_data_address, construct_slice, slice_len, slice_data
    case 26 => Some([KValueId, KStr, KHex, KU64, KTypeHash])
    case 27 => Some([KValueId, KValueId, KValueId, KValueId, KTypeHash, KTypeHash])
    case 28 => Some([KValueId, KValueId, KTypeHash, KTypeHash])
    case 29 => Some([KValueId, KValueId, KTypeHash, KTypeHash])
    // vec_new, vec_push, vec_get, vec_len
    case 30 => Some([KValueId, KValueId, KU64, KTypeHash, KTypeHash])
    case 31 => Some([KValueId, KValueId, KValueId, KTypeHash, KTypeHash, KTypeHash])
    case 32 => Some([KValueId, KValueId, KValueId, KTypeHash, KTypeHash, KTypeHash])
    case 33 => Some([KValueId, KValueId, KTypeHash, KTypeHash])
    // string_new, string_len, string_with_capacity, string_push, string_get, string_set
    case 34 => Some([KValueId, KValueId, KStr, KHex, KU64, KTypeHash])
    case 35 => Some([KValueId, KValueId, KTypeHash, KTypeHash])
    case 36 => Some([KValueId, KValueId, KValueId, KTypeHash])
    case 37 => Some([KValueId, KValueId, KValueId, KTypeHash, KTypeHash])
    case 38 => Some([KValueId, KValueId, KValueId, KTypeHash, KTypeHash])
    case 39 => Some([KValueId, KValueId, KValueId, KValueId, KTypeHash, KTypeHash])
    // arg_count, arg_len, arg_byte
    case 40 => Some([KValueId, KTypeHash])
    case 41 => Some([KValueId, KValueId, KTypeHash])
    case 42 => Some([KValueId, KValueId, KValueId, KTypeHash])
    // bounds_check, slice_range_check
    case 43 => Some([KValueId, KValueId, KU64, KOptValueId, KTypeHash])
    case 44 => Some([KValueId, KValueId, KValueId, KValueId, KTypeHash])
    // load_enum_tag, store_enum_tag, load, store, copy, move, drop, free_box_shell
    case 45 => Some([KValueId, KValueId, KTypeHash])
    case 46 => Some([KValueId, KTypeHash, KStr, KOptStr, KU64])
    case 47 => Some([KValueId, KValueId, KTypeHash])
    case 48 => Some([KValueId, KValueId, KTypeHash])
    case 49 => Some([KValueId, KValueId, KTypeHash])
    case 50 => Some([KValueId, KValueId, KTypeHash])
    case 51 => Some([KValueId, KTypeHash])
    case 52 => Some([KValueId, KTypeHash])
    // borrow_debug, return, early_return
    case 53 => Some([KValueId, KFlag, KOptStr, KTypeHash])
    case 54 => Some([KValueId, KTypeHash])
    case 55 => Some([KValueId, KTypeHash])
    case _ => None
  }

  function ReadPlaceShape(kind: Byte): Option<seq<Kind>> {
    match kind
    case 0 => Some([KSlot, KTypeHash, KFlag])
    case 1 => Some([KSlot, KTypeHash])
    case 2 => Some([KValueId, KStr, KOptStr, KTypeHash, KU64, KTypeHash])
    case 3 => Some([KValueId, KStr, KOptStr, KTypeHash, KU64, KU64, KTypeHash])
    case 4 => Some([KValueId, KValueId, KTypeHash, KTypeHash])
    case _ => None
  }

  /** The entry of `table` an index read from `s` selects. */
  function Lookup<T>(table: seq<T>, s: seq<Byte>): (r: Dec<T>)
    ensures r.Got? ==> |r.rest| + 4 == |s|
  {
    var (i, rest) :- ReadLe(4, s);
    if i < |table| then Got(table[i], rest) else Fail
  }

  function ReadByte(s: seq<Byte>): (r: Dec<Byte>)
    ensures r.Got? ==> |r.rest| + 1 == |s|
  {
    if s == [] then Fail else Got(s[0], s[1..])
  }

  function DecodeLeaf(env: Env, scope: Scope, k: Kind, s: seq<Byte>): (r: Dec<Field>)
    ensures r.Got? ==> |r.rest| < |s|
  {
    match k
    case KValueId =>
      var (id, rest) :- Lookup(scope.values, s);
      Got(ValueId(id), rest)
    case KTypeHash =>
      var (hash, rest) :- Lookup(scope.types, s);
      Got(TypeHash(hash), rest)
    case KStr =>
      var (text, rest) :- Lookup(scope.strings, s);
      Got(Str(text), rest)
    case KOptStr =>
      var (flag, s1) :- ReadByte(s);
      if flag == 0 then Got(OptStr(None), s1)
      else if flag == 1 then
        var (text, rest) :- Lookup(scope.strings, s1);
        Got(OptStr(Some(text)), rest)
      else Fail
    case KOptValueId =>
      var (flag, s1) :- ReadByte(s);
      if flag == 0 then Got(OptValueId(None), s1)
      else if flag == 1 then
        var (id, rest) :- Lookup(scope.values, s1);
        Got(OptValueId(Some(id)), rest)
      else Fail
    case KU8 =>
      var (byte, rest) :- ReadByte(s);
      Got(U8(byte), rest)
    case KU32 =>
      var (word, rest) :- ReadLe(4, s);
      Got(U32(word), rest)
    case KU64 =>
      var (wide, rest) :- ReadLe(8, s);
      Got(U64(wide), rest)
    case KFlag =>
      var (byte, rest) :- ReadByte(s);
      Got(Flag(byte != 0), rest)
    case KSlot =>
      var (slot, rest) :- ReadLe(4, s);
      Got(Slot(slot), rest)
    case KOperator =>
      var (opKind, s1) :- Lookup(scope.strings, s);
      var (columns, rest) :- ReadBytes(3, s1);
      if env.operatorColumns(opKind) == Some((columns[0], columns[1], columns[2]))
      then Got(Operator(opKind), rest) else Fail
    case KTrap =>
      var (flag, s1) :- ReadByte(s);
      if flag == 0 then Got(Trap(None), s1)
      else if flag == 1 then
        var (condition, s2) :- Lookup(scope.strings, s1);
        var (code, rest) :- Lookup(scope.strings, s2);
        Got(Trap(Some((condition, code))), rest)
      else Fail
    case KIntText =>
      var (bits, rest) :- ReadLe(8, s);
      Widths();
      FromLeBound(s[..8]);
      Got(IntText(Decimal(I64Value(bits))), rest)
    case KHex =>
      var (bytes, rest) :- Lookup(scope.data, s);
      Got(Hex(BytesToHex(bytes)), rest)
    case KCallTarget =>
      var (symbol, rest) :- Lookup(scope.symbols, s);
      Got(CallTarget(symbol), rest)
    case KPlace => Fail
    case KBlock => Fail
    case KOps => Fail
    case KRows(_) => Fail
  }

  function DecodeField(env: Env, scope: Scope, k: Kind, s: seq<Byte>): (r: Dec<Field>)
    ensures r.Got? ==> |r.rest| < |s|
    decreases |s|, 0, 0
  {
    match k
    case KPlace =>
      var (placeKind, s1) :- ReadByte(s);
      (match ReadPlaceShape(placeKind)
       case None => Fail
       case Some(shape) =>
         var (fields, rest) :- DecodeFields(env, scope, shape, s1);
         Got(Place(placeKind, fields), rest))
    case KBlock =>
      var (n, s1) :- ReadLe(4, s);
      var (operations, s2) :- DecodeOps(env, scope, n, s1);
      var (result, rest) :- Lookup(scope.values, s2);
      Got(Block(operations, result), rest)
    case KOps =>
      var (n, s1) :- ReadLe(4, s);
      var (ops, rest) :- DecodeOps(env, scope, n, s1);
      Got(Ops(ops), rest)
    case KRows(row) =>
      var (n, s1) :- ReadLe(4, s);
      var (rows, rest) :- DecodeRows(env, scope, row, n, s1);
      Got(Rows(rows), rest)
    case _ => DecodeLeaf(env, scope, k, s)
  }

  function DecodeFields(env: Env, scope: Scope, shape: seq<Kind>, s: seq<Byte>): (r: Dec<seq<Field>>)
    ensures r.Got? ==> |r.rest| <= |s|
    decreases |s|, 1, |shape|
  {
    if shape == [] then Got([], s)
    else
      var (f, s1) :- DecodeField(env, scope, shape[0], s);
      var (fs, rest) :- DecodeFields(env, scope, shape[1..], s1);
      Got([f] + fs, rest)
  }

  function DecodeRows(env: Env, scope: Scope, shape: seq<Kind>, n: nat, s: seq<Byte>): (r: Dec<seq<Row>>)
    ensures r.Got? ==> |r.rest| <= |s|
    decreases |s|, 2, n
  {
    if n == 0 then Got([], s)
    else
      var (fields, s1) :- DecodeFields(env, scope, shape, s);
      var (rows, rest) :- DecodeRows(env, scope, shape, n - 1, s1);
      Got([Row(fields)] + rows, rest)
  }

  function DecodeOps(env: Env, scope: Scope, n: nat, s: seq<Byte>): (r: Dec<seq<Op>>)
    ensures r.Got? ==> |r.rest| <= |s|
    decreases |s|, 2, n
  {
    if n == 0 then Got([], s)
    else
      var (code, s1) :- ReadByte(s);
      match ReadShape(code)
      case None => Fail
      case Some(shape) =>
        var (fields, s2) :- DecodeFields(env, scope, shape, s1);
        var (ops, rest) :- DecodeOps(env, scope, n - 1, s2);
        Got([Op(code, fields)] + ops, rest)
  }
}
